/** What the backfill specification guarantees: how the range is cut, how many requests are
    made, which klines are staged, how a failing pair is isolated, and that a second identical
    run writes nothing. */
module BackfillProperties {
  import opened Strings
  import opened CryptoRateEntity
  import opened Calendar
  import opened Digits
  import opened BinanceHelper
  import opened Logging
  import opened Persistence
  import opened CryptoRateRepository
  import opened HistoricalRateBackfill

  // ---- chunk tiling and count -------------------------------------------------------

  /** The chunks tile [start, end): none when start >= end; otherwise the first starts at start,
      each next one starts where the previous ended, the last ends at end, every chunk is
      non-empty and at most three days long, and all but the last are exactly three days. */
  lemma {:induction false} ChunksTile(start: int, end: int)
    ensures var cs := Chunks(start, end);
      (cs == [] <==> start >= end)
      && (cs != [] ==> cs[0].0 == start && cs[|cs| - 1].1 == end)
      && (forall i :: 0 <= i < |cs| ==> cs[i].0 < cs[i].1 <= cs[i].0 + ChunkSeconds)
      && (forall i :: 0 <= i < |cs| - 1 ==> cs[i].1 == cs[i + 1].0 && cs[i].1 == cs[i].0 + ChunkSeconds)
    decreases end - start
  {
    if start < end {
      var mid := ChunkEnd(start, end);
      var rest := Chunks(mid, end);
      ChunksTile(mid, end);
      var cs := Chunks(start, end);
      assert cs == [(start, mid)] + rest;
      forall i | 0 <= i < |cs| ensures cs[i].0 < cs[i].1 <= cs[i].0 + ChunkSeconds {
        if i > 0 {
          assert cs[i] == rest[i - 1];
        }
      }
      forall i | 0 <= i < |cs| - 1 ensures cs[i].1 == cs[i + 1].0 && cs[i].1 == cs[i].0 + ChunkSeconds {
        if i == 0 {
          assert rest != [];
          assert mid < end;
        } else {
          assert cs[i] == rest[i - 1] && cs[i + 1] == rest[i];
        }
      }
      if rest != [] {
        assert cs[|cs| - 1] == rest[|rest| - 1];
      }
    }
  }

  /** A range of d > 0 seconds is cut into ceil(d / 3 days) chunks. */
  lemma {:induction false} ChunkCount(start: int, end: int)
    requires start <= end
    ensures |Chunks(start, end)| == (end - start + ChunkSeconds - 1) / ChunkSeconds
    decreases end - start
  {
    var d := end - start;
    if d == 0 {
    } else if d <= ChunkSeconds {
      DivModUnique(d + ChunkSeconds - 1, ChunkSeconds, 1, d - 1);
    } else {
      ChunkCount(start + ChunkSeconds, end);
      var q := (d - ChunkSeconds + ChunkSeconds - 1) / ChunkSeconds;
      var r := (d - ChunkSeconds + ChunkSeconds - 1) % ChunkSeconds;
      DivModUnique(d + ChunkSeconds - 1, ChunkSeconds, q + 1, r);
    }
  }

  /** A backfill of `days` days makes ceil(days / 3) chunks per pair. */
  lemma ChunksPerPair(now: int, days: int)
    requires days >= 0
    ensures |Chunks(RangeStart(now, days), now)| == (days + 2) / 3
  {
    ChunkCount(RangeStart(now, days), now);
    var q, r := days / 3, days % 3;
    assert days == 3 * q + r;
    assert days * SecondsPerDay + ChunkSeconds - 1 == q * ChunkSeconds + (r * SecondsPerDay + ChunkSeconds - 1);
    if r == 0 {
      DivModUnique(days * SecondsPerDay + ChunkSeconds - 1, ChunkSeconds, q, ChunkSeconds - 1);
      DivModUnique(days + 2, 3, q, 2);
    } else if r == 1 {
      DivModUnique(days * SecondsPerDay + ChunkSeconds - 1, ChunkSeconds, q + 1, SecondsPerDay - 1);
      DivModUnique(days + 2, 3, q + 1, 0);
    } else {
      DivModUnique(days * SecondsPerDay + ChunkSeconds - 1, ChunkSeconds, q + 1, 2 * SecondsPerDay - 1);
      DivModUnique(days + 2, 3, q + 1, 1);
    }
  }

  /** 7 days give 3 chunks, 5 give 2, 3 and 1 give 1, 0 gives none. */
  lemma ChunksPerPairExamples(now: int)
    ensures |Chunks(RangeStart(now, 7), now)| == 3 && |Chunks(RangeStart(now, 5), now)| == 2
    ensures |Chunks(RangeStart(now, 3), now)| == 1 && |Chunks(RangeStart(now, 1), now)| == 1
    ensures Chunks(RangeStart(now, 0), now) == []
  {
    ChunksPerPair(now, 7);
    ChunksPerPair(now, 5);
    ChunksPerPair(now, 3);
    ChunksPerPair(now, 1);
  }

  // ---- requests ----------------------------------------------------------------------

  predicate AllFetched(symbol: string, interval: string, chunks: seq<(int, int)>, respond: Request -> FetchResult) {
    forall i :: 0 <= i < |chunks| ==> respond(ChunkRequest(symbol, interval, chunks[i])).Fetched?
  }

  /** The request for each chunk, in chunk order. */
  function ChunkRequests(symbol: string, interval: string, chunks: seq<(int, int)>): (r: seq<Request>)
    ensures |r| == |chunks|
    ensures forall i :: 0 <= i < |r| ==> r[i] == ChunkRequest(symbol, interval, chunks[i])
  {
    seq(|chunks|, i requires 0 <= i < |chunks| => ChunkRequest(symbol, interval, chunks[i]))
  }

  /** How many chunks, from the first, are fetched successfully before the first failure. */
  function FetchedPrefix(symbol: string, interval: string, chunks: seq<(int, int)>, respond: Request -> FetchResult): (n: nat)
    ensures n <= |chunks|
    ensures AllFetched(symbol, interval, chunks[..n], respond)
    ensures n < |chunks| ==> respond(ChunkRequest(symbol, interval, chunks[n])).FetchFailed?
  {
    if chunks == [] || respond(ChunkRequest(symbol, interval, chunks[0])).FetchFailed? then 0
    else
      var n := 1 + FetchedPrefix(symbol, interval, chunks[1..], respond);
      assert forall i :: 1 <= i < n ==> chunks[..n][i] == chunks[1..][..n - 1][i - 1];
      n
  }

  lemma AllFetchedPrefix(symbol: string, interval: string, chunks: seq<(int, int)>, respond: Request -> FetchResult)
    ensures AllFetched(symbol, interval, chunks, respond) <==> FetchedPrefix(symbol, interval, chunks, respond) == |chunks|
  {
    var n := FetchedPrefix(symbol, interval, chunks, respond);
    if n == |chunks| {
      assert chunks[..n] == chunks;
    }
  }

  /** A pair's chunk loop completes exactly when every chunk's fetch succeeds, whatever the store
      holds. It sends one request per chunk, in chunk order, up to and including the first
      failing one, and no more. */
  lemma RunChunksRequests(e: Effects, pair: string, symbol: string, interval: string,
                          chunks: seq<(int, int)>, respond: Request -> FetchResult)
    ensures var o := RunChunks(e, pair, symbol, interval, chunks, respond);
      var n := FetchedPrefix(symbol, interval, chunks, respond);
      (o.completed <==> AllFetched(symbol, interval, chunks, respond))
      && o.effects.requests == e.requests + ChunkRequests(symbol, interval, chunks[..if o.completed then n else n + 1])
  {
    RunChunksCompletes(e, pair, symbol, interval, chunks, respond);
    RunChunksSent(e, pair, symbol, interval, chunks, respond);
  }

  lemma {:induction false} RunChunksCompletes(e: Effects, pair: string, symbol: string, interval: string,
                                              chunks: seq<(int, int)>, respond: Request -> FetchResult)
    ensures RunChunks(e, pair, symbol, interval, chunks, respond).completed
        <==> FetchedPrefix(symbol, interval, chunks, respond) == |chunks|
    ensures RunChunks(e, pair, symbol, interval, chunks, respond).completed
        <==> AllFetched(symbol, interval, chunks, respond)
    decreases |chunks|
  {
    AllFetchedPrefix(symbol, interval, chunks, respond);
    if chunks != [] && respond(ChunkRequest(symbol, interval, chunks[0])).Fetched? {
      var e2 := RunChunksFetchedStep(e, pair, symbol, interval, chunks, respond);
      RunChunksCompletes(e2, pair, symbol, interval, chunks[1..], respond);
    }
  }

  lemma {:induction false} RunChunksSent(e: Effects, pair: string, symbol: string, interval: string,
                                         chunks: seq<(int, int)>, respond: Request -> FetchResult)
    ensures var o := RunChunks(e, pair, symbol, interval, chunks, respond);
      var n := FetchedPrefix(symbol, interval, chunks, respond);
      o.effects.requests == e.requests + ChunkRequests(symbol, interval, chunks[..if n == |chunks| then n else n + 1])
    decreases |chunks|
  {
    if chunks != [] {
      var req := ChunkRequest(symbol, interval, chunks[0]);
      if respond(req).FetchFailed? {
        assert chunks[..1] == [chunks[0]];
      } else {
        var rest := chunks[1..];
        var e2 := RunChunksFetchedStep(e, pair, symbol, interval, chunks, respond);
        RunChunksSent(e2, pair, symbol, interval, rest, respond);
        var o' := RunChunks(e2, pair, symbol, interval, rest, respond);
        var n' := FetchedPrefix(symbol, interval, rest, respond);
        var m := if n' == |rest| then n' else n' + 1;
        var sent := ChunkRequests(symbol, interval, rest[..m]);
        assert o'.effects.requests == e.requests + [req] + sent;
        AppendAssoc(e.requests, [req], sent);
        ChunkRequestsCons(symbol, interval, chunks, m);
      }
    }
  }

  /** Unfolding the chunk loop once past a chunk whose fetch succeeds: the loop goes on from a
      world `e2` that has sent one more request. */
  lemma RunChunksFetchedStep(e: Effects, pair: string, symbol: string, interval: string,
                             chunks: seq<(int, int)>, respond: Request -> FetchResult) returns (e2: Effects)
    requires chunks != [] && respond(ChunkRequest(symbol, interval, chunks[0])).Fetched?
    ensures e2.requests == e.requests + [ChunkRequest(symbol, interval, chunks[0])]
    ensures var o' := RunChunks(e2, pair, symbol, interval, chunks[1..], respond);
      var o := RunChunks(e, pair, symbol, interval, chunks, respond);
      o.completed == o'.completed && o.effects.requests == o'.effects.requests
    ensures FetchedPrefix(symbol, interval, chunks, respond) == 1 + FetchedPrefix(symbol, interval, chunks[1..], respond)
  {
    var req := ChunkRequest(symbol, interval, chunks[0]);
    var e1 := e.(log := e.log + [ChunkFetching(pair, chunks[0].0, chunks[0].1)], requests := e.requests + [req]);
    e2 := SaveChunk(e1, pair, respond(req).klines);
  }

  /** The requests of the first m + 1 chunks: the first chunk's, then the next m. */
  lemma ChunkRequestsCons(symbol: string, interval: string, chunks: seq<(int, int)>, m: nat)
    requires m + 1 <= |chunks|
    ensures ChunkRequests(symbol, interval, chunks[..m + 1])
         == [ChunkRequest(symbol, interval, chunks[0])] + ChunkRequests(symbol, interval, chunks[1..][..m])
  {
    assert chunks[..m + 1] == [chunks[0]] + chunks[1..][..m];
  }

  /** When the loop completes it has sent exactly one request per chunk. */
  lemma RunChunksCompletedRequests(e: Effects, pair: string, symbol: string, interval: string,
                                   chunks: seq<(int, int)>, respond: Request -> FetchResult)
    requires AllFetched(symbol, interval, chunks, respond)
    ensures RunChunks(e, pair, symbol, interval, chunks, respond).effects.requests
         == e.requests + ChunkRequests(symbol, interval, chunks)
    ensures RunChunks(e, pair, symbol, interval, chunks, respond).completed
  {
    RunChunksRequests(e, pair, symbol, interval, chunks, respond);
    AllFetchedPrefix(symbol, interval, chunks, respond);
    assert chunks[..|chunks|] == chunks;
  }

  /** The world only grows along a pair's chunk loop: rows, requests and log entries are only
      appended, and `inserted` is exactly the number of rows added, also when a fetch failed
      after some chunks were saved. */
  lemma {:induction false} RunChunksGrows(e: Effects, pair: string, symbol: string, interval: string,
                                          chunks: seq<(int, int)>, respond: Request -> FetchResult)
    ensures var o := RunChunks(e, pair, symbol, interval, chunks, respond);
      e.store <= o.effects.store && |o.effects.store| == |e.store| + o.inserted
      && e.log <= o.effects.log && e.requests <= o.effects.requests
    decreases |chunks|
  {
    if chunks != [] {
      var req := ChunkRequest(symbol, interval, chunks[0]);
      var e1 := e.(log := e.log + [ChunkFetching(pair, chunks[0].0, chunks[0].1)],
                   requests := e.requests + [req]);
      match respond(req)
      case FetchFailed =>
      case Fetched(klines) =>
        var e2 := SaveChunk(e1, pair, klines);
        RunChunksGrows(e2, pair, symbol, interval, chunks[1..], respond);
        var o' := RunChunks(e2, pair, symbol, interval, chunks[1..], respond);
        PrefixTrans(e.store, e2.store, o'.effects.store);
        PrefixTrans(e.log, e2.log, o'.effects.log);
        PrefixTrans(e.requests, e2.requests, o'.effects.requests);
    }
  }

  lemma PrefixTrans<T>(a: seq<T>, b: seq<T>, c: seq<T>)
    requires a <= b && b <= c
    ensures a <= c
  {
    assert c[..|b|][..|a|] == c[..|a|];
  }

  lemma PrefixIn<T>(x: T, a: seq<T>, b: seq<T>)
    requires x in a && a <= b
    ensures x in b
  {
    var i :| 0 <= i < |a| && a[i] == x;
    assert b[i] == x;
  }

  lemma {:induction false} PairStepGrows(e: Effects, pair: string, symbol: string, interval: string,
                                         respond: Request -> FetchResult, start: int, end: int)
    ensures var o := PairStep(e, pair, symbol, interval, respond, start, end);
      e.store <= o.effects.store && |o.effects.store| == |e.store| + o.inserted
      && e.log <= o.effects.log && e.requests <= o.effects.requests
      && BackfillStarted(pair, start, end) in o.effects.log
      && (!o.completed ==> BackfillFailed(pair) in o.effects.log)
  {
    var e1 := e.(log := e.log + [BackfillStarted(pair, start, end)]);
    RunChunksGrows(e1, pair, symbol, interval, Chunks(start, end), respond);
    var o := RunChunks(e1, pair, symbol, interval, Chunks(start, end), respond);
    var last := if o.completed then BackfillFinished(pair, o.inserted) else BackfillFailed(pair);
    PrefixTrans(e.log, e1.log, o.effects.log);
    PrefixTrans(e.log, o.effects.log, o.effects.log + [last]);
    PrefixIn(BackfillStarted(pair, start, end), e1.log, o.effects.log);
    PrefixIn(BackfillStarted(pair, start, end), o.effects.log, o.effects.log + [last]);
  }

  // ---- all pairs: isolation, attempts, totals -----------------------------------------

  /** A pair is processed when all of its chunk fetches succeed. */
  predicate PairFetched(p: (string, string), interval: string, respond: Request -> FetchResult, start: int, end: int) {
    AllFetched(p.1, interval, Chunks(start, end), respond)
  }

  /** The names of the pairs whose fetches all succeed, in catalog order. */
  function CompletedPairs(pairs: seq<(string, string)>, interval: string, respond: Request -> FetchResult,
                          start: int, end: int): (r: seq<string>)
    ensures |r| <= |pairs|
    ensures forall x :: x in r <==> exists k :: 0 <= k < |pairs| && pairs[k].0 == x && PairFetched(pairs[k], interval, respond, start, end)
    ensures (forall k :: 0 <= k < |pairs| ==> !PairFetched(pairs[k], interval, respond, start, end)) ==> r == []
  {
    if pairs == [] then []
    else
      var rest := CompletedPairs(pairs[1..], interval, respond, start, end);
      assert forall k :: 1 <= k < |pairs| ==> pairs[k] == pairs[1..][k - 1];
      (if PairFetched(pairs[0], interval, respond, start, end) then [pairs[0].0] else []) + rest
  }

  /** The loop never stops early: every pair is started, every pair that fails is logged as
      failed, `pairs_processed` lists exactly the pairs whose fetches all succeeded, in order, and
      no row is lost: the store only grows, by at least `total_inserted` rows — by exactly that
      many when no pair failed. */
  lemma {:induction false} RunPairsOutcome(e: Effects, pairs: seq<(string, string)>, interval: string,
                                           respond: Request -> FetchResult, start: int, end: int)
    ensures var t := RunPairs(e, pairs, interval, respond, start, end);
      t.processed == CompletedPairs(pairs, interval, respond, start, end)
      && (forall k :: 0 <= k < |pairs| ==> BackfillStarted(pairs[k].0, start, end) in t.effects.log)
      && (forall k :: 0 <= k < |pairs| && !PairFetched(pairs[k], interval, respond, start, end)
            ==> BackfillFailed(pairs[k].0) in t.effects.log)
      && e.store <= t.effects.store && e.log <= t.effects.log && e.requests <= t.effects.requests
      && t.total <= |t.effects.store| - |e.store|
      && ((forall k :: 0 <= k < |pairs| ==> PairFetched(pairs[k], interval, respond, start, end))
            ==> t.total == |t.effects.store| - |e.store|)
    decreases |pairs|
  {
    if pairs != [] {
      var p := pairs[0];
      var o := PairStep(e, p.0, p.1, interval, respond, start, end);
      PairStepGrows(e, p.0, p.1, interval, respond, start, end);
      var e1 := e.(log := e.log + [BackfillStarted(p.0, start, end)]);
      RunChunksRequests(e1, p.0, p.1, interval, Chunks(start, end), respond);
      RunChunksGrows(e1, p.0, p.1, interval, Chunks(start, end), respond);
      assert o.completed <==> PairFetched(p, interval, respond, start, end);
      var rest := pairs[1..];
      RunPairsOutcome(o.effects, rest, interval, respond, start, end);
      var t' := RunPairs(o.effects, rest, interval, respond, start, end);
      var t := RunPairs(e, pairs, interval, respond, start, end);
      assert t.effects == t'.effects;
      PrefixTrans(e.store, o.effects.store, t.effects.store);
      PrefixTrans(e.log, o.effects.log, t.effects.log);
      PrefixTrans(e.requests, o.effects.requests, t.effects.requests);
      forall k | 0 <= k < |pairs| ensures BackfillStarted(pairs[k].0, start, end) in t.effects.log {
        if k == 0 {
          PrefixIn(BackfillStarted(p.0, start, end), o.effects.log, t.effects.log);
        } else {
          assert pairs[k] == rest[k - 1];
        }
      }
      forall k | 0 <= k < |pairs| && !PairFetched(pairs[k], interval, respond, start, end)
        ensures BackfillFailed(pairs[k].0) in t.effects.log
      {
        if k == 0 {
          PrefixIn(BackfillFailed(p.0), o.effects.log, t.effects.log);
        } else {
          assert pairs[k] == rest[k - 1];
        }
      }
      if forall k :: 0 <= k < |pairs| ==> PairFetched(pairs[k], interval, respond, start, end) {
        assert forall k :: 0 <= k < |rest| ==> rest[k] == pairs[k + 1];
      }
    }
  }

  /** A pair whose fetch fails adds nothing to the total and does not appear in the list, even
      when its earlier chunks were saved; the pairs after it run exactly as they would have from
      the world it left behind. */
  lemma FailingPairIsolated(e: Effects, pairs: seq<(string, string)>, interval: string,
                            respond: Request -> FetchResult, start: int, end: int)
    requires pairs != [] && !PairFetched(pairs[0], interval, respond, start, end)
    ensures var o := PairStep(e, pairs[0].0, pairs[0].1, interval, respond, start, end);
      RunPairs(e, pairs, interval, respond, start, end)
        == RunPairs(o.effects, pairs[1..], interval, respond, start, end)
      && e.store <= o.effects.store
  {
    var e1 := e.(log := e.log + [BackfillStarted(pairs[0].0, start, end)]);
    RunChunksRequests(e1, pairs[0].0, pairs[0].1, interval, Chunks(start, end), respond);
    PairStepGrows(e, pairs[0].0, pairs[0].1, interval, respond, start, end);
  }

  /** When every pair's fetches succeed, each pair sends one request per chunk, so the run sends
      (number of pairs) x (chunks per pair) requests. */
  lemma {:induction false} RequestCount(e: Effects, pairs: seq<(string, string)>, interval: string,
                                        respond: Request -> FetchResult, start: int, end: int)
    requires forall k :: 0 <= k < |pairs| ==> PairFetched(pairs[k], interval, respond, start, end)
    ensures |RunPairs(e, pairs, interval, respond, start, end).effects.requests|
         == |e.requests| + |pairs| * |Chunks(start, end)|
    decreases |pairs|
  {
    if pairs != [] {
      var p := pairs[0];
      var c := |Chunks(start, end)|;
      var e1 := e.(log := e.log + [BackfillStarted(p.0, start, end)]);
      RunChunksCompletedRequests(e1, p.0, p.1, interval, Chunks(start, end), respond);
      var o := PairStep(e, p.0, p.1, interval, respond, start, end);
      assert |o.effects.requests| == |e.requests| + c;
      var rest := pairs[1..];
      assert forall k :: 0 <= k < |rest| ==> rest[k] == pairs[k + 1];
      RequestCount(o.effects, rest, interval, respond, start, end);
      var t, t' := RunPairs(e, pairs, interval, respond, start, end), RunPairs(o.effects, rest, interval, respond, start, end);
      assert t.effects == t'.effects;
      MulStep(|pairs|, c);
    }
  }

  lemma MulStep(n: int, c: int)
    ensures n * c == (n - 1) * c + c
  {
  }

  /** A week-long backfill of three pairs whose fetches all succeed sends 9 requests; five days
      send 6. */
  lemma WeekOfThreePairs(e: Effects, pairs: seq<(string, string)>, interval: string,
                         respond: Request -> FetchResult, now: int)
    requires |pairs| == 3 && (forall r :: respond(r).Fetched?)
    ensures |RunPairs(e, pairs, interval, respond, RangeStart(now, 7), now).effects.requests| == |e.requests| + 9
    ensures |RunPairs(e, pairs, interval, respond, RangeStart(now, 5), now).effects.requests| == |e.requests| + 6
  {
    ChunksPerPair(now, 7);
    ChunksPerPair(now, 5);
    RequestCount(e, pairs, interval, respond, RangeStart(now, 7), now);
    RequestCount(e, pairs, interval, respond, RangeStart(now, 5), now);
  }

  /** A specific pair the catalog lacks gives an empty run: nothing inserted, nothing processed,
      and the world — store, requests, log — untouched. */
  lemma UnknownPairIsNoOp(e: Effects, catalog: seq<(string, string)>, interval: string,
                          respond: Request -> FetchResult, days: int, pair: string, now: int)
    requires forall i :: 0 <= i < |catalog| ==> catalog[i].0 != pair
    ensures var r := Backfill(e, catalog, interval, respond, days, Some(pair), now);
      r.0.totalInserted == 0 && r.0.pairsProcessed == [] && r.1 == e
  {
  }

  /** When the exchange is down for a non-empty range, nothing is inserted, no pair is processed
      and the store is unchanged. */
  lemma TotalOutage(e: Effects, catalog: seq<(string, string)>, interval: string,
                    respond: Request -> FetchResult, days: int, specific: Option<string>, now: int)
    requires days >= 1 && (forall r :: respond(r) == FetchFailed)
    ensures var r := Backfill(e, catalog, interval, respond, days, specific, now);
      r.0.totalInserted == 0 && r.0.pairsProcessed == [] && r.1.store == e.store
  {
    var pairs := ResolvePairs(catalog, specific);
    var start := RangeStart(now, days);
    ChunksTile(start, now);
    RunPairsOutcome(e, pairs, interval, respond, start, now);
    var t := RunPairs(e, pairs, interval, respond, start, now);
    forall k | 0 <= k < |pairs| ensures !PairFetched(pairs[k], interval, respond, start, now) {
      assert respond(ChunkRequest(pairs[k].1, interval, Chunks(start, now)[0])) == FetchFailed;
    }
    NoCompletionNoRows(e, pairs, interval, respond, start, now);
  }

  lemma {:induction false} NoCompletionNoRows(e: Effects, pairs: seq<(string, string)>, interval: string,
                                              respond: Request -> FetchResult, start: int, end: int)
    requires start < end && (forall r :: respond(r) == FetchFailed)
    ensures var t := RunPairs(e, pairs, interval, respond, start, end);
      t.total == 0 && t.effects.store == e.store
    decreases |pairs|
  {
    if pairs != [] {
      assert Chunks(start, end) != [];
      var o := PairStep(e, pairs[0].0, pairs[0].1, interval, respond, start, end);
      assert o.effects.store == e.store;
      NoCompletionNoRows(o.effects, pairs[1..], interval, respond, start, end);
    }
  }

  // ---- staging ----------------------------------------------------------------------

  /** Staging distributes over concatenation of kline lists, because the existence check reads
      the store only, never rows staged earlier in the same batch. */
  lemma StagedAppend(store: seq<RateRow>, pair: string, a: seq<Kline>, b: seq<Kline>)
    ensures Staged(store, pair, a + b) == Staged(store, pair, a) + Staged(store, pair, b)
    ensures Warnings(pair, a + b) == Warnings(pair, a) + Warnings(pair, b)
  {
    StagedRowsAppend(store, pair, a, b);
    WarningsAppend(pair, a, b);
  }

  lemma {:induction false} StagedRowsAppend(store: seq<RateRow>, pair: string, a: seq<Kline>, b: seq<Kline>)
    ensures Staged(store, pair, a + b) == Staged(store, pair, a) + Staged(store, pair, b)
    decreases |b|
  {
    if b == [] {
      assert a + b == a;
    } else {
      var ab, init := a + b, b[..|b| - 1];
      assert ab[..|ab| - 1] == a + init;
      assert ab[|ab| - 1] == b[|b| - 1];
      StagedRowsAppend(store, pair, a, init);
      var one := StageOne(store, pair, b[|b| - 1]);
      assert Staged(store, pair, ab) == Staged(store, pair, a + init) + one;
      assert Staged(store, pair, b) == Staged(store, pair, init) + one;
      AppendAssoc(Staged(store, pair, a), Staged(store, pair, init), one);
    }
  }

  lemma {:induction false} WarningsAppend(pair: string, a: seq<Kline>, b: seq<Kline>)
    ensures Warnings(pair, a + b) == Warnings(pair, a) + Warnings(pair, b)
    decreases |b|
  {
    if b == [] {
      assert a + b == a;
    } else {
      var ab, init := a + b, b[..|b| - 1];
      assert ab[..|ab| - 1] == a + init;
      assert ab[|ab| - 1] == b[|b| - 1];
      WarningsAppend(pair, a, init);
    }
  }

  /** A malformed kline anywhere in a chunk is skipped with exactly one warning; the rows staged
      from the rest of the chunk are the same as without it. */
  lemma MalformedSkipped(store: seq<RateRow>, pair: string, a: seq<Kline>, b: seq<Kline>)
    ensures Staged(store, pair, a + [Malformed] + b) == Staged(store, pair, a + b)
    ensures Warnings(pair, a + [Malformed] + b) == Warnings(pair, a) + [KlineRejected(pair)] + Warnings(pair, b)
  {
    var am := a + [Malformed];
    StagedAppend(store, pair, am, b);
    StagedAppend(store, pair, a, [Malformed]);
    StagedAppend(store, pair, a, b);
    MalformedAlone(store, pair);
    var sa := Staged(store, pair, a);
    assert Staged(store, pair, am) == sa + [] == sa;
  }

  /** Each malformed kline of a chunk is logged with exactly one warning, and the chunk's
      staging logs nothing at any other level. */
  lemma MalformedWarns(pair: string, a: seq<Kline>, b: seq<Kline>, level: Level)
    requires level != Warning
    ensures CountLevel(Warnings(pair, a + [Malformed] + b), Warning)
         == CountLevel(Warnings(pair, a + b), Warning) + 1
    ensures CountLevel(Warnings(pair, a + [Malformed] + b), level) == 0
  {
    var w, w0 := Warnings(pair, a + [Malformed] + b), Warnings(pair, a + b);
    CountLevelAll(w, Warning);
    CountLevelAll(w0, Warning);
    MalformedSkipped([], pair, a, b);
    WarningsAppend(pair, a, b);
    assert |w| == |w0| + 1;
    NoOtherLevel(w, level);
  }

  lemma {:induction false} NoOtherLevel(log: seq<LogEntry>, level: Level)
    requires forall i :: 0 <= i < |log| ==> log[i].KlineRejected?
    requires level != Warning
    ensures CountLevel(log, level) == 0
    decreases |log|
  {
    if log != [] {
      NoOtherLevel(log[..|log| - 1], level);
    }
  }

  lemma MalformedAlone(store: seq<RateRow>, pair: string)
    ensures Staged(store, pair, [Malformed]) == [] && Warnings(pair, [Malformed]) == [KlineRejected(pair)]
  {
    assert [Malformed][..0] == [];
  }

  /** A row is staged exactly when a well-formed kline of the chunk carries it — the pair, the
      close price unchanged and the open time in seconds — and that (pair, second) is absent
      from the store. */
  lemma {:induction false} StagedMembers(store: seq<RateRow>, pair: string, klines: seq<Kline>, x: RateRow)
    ensures x in Staged(store, pair, klines)
        <==> exists k :: 0 <= k < |klines| && klines[k].Good?
               && x == RateRow(pair, klines[k].close, MsToSeconds(klines[k].openMs))
               && !RateExists(store, pair, MsToSeconds(klines[k].openMs))
    decreases |klines|
  {
    if klines != [] {
      var init := klines[..|klines| - 1];
      var last := klines[|klines| - 1];
      StagedMembers(store, pair, init, x);
      var staged := Staged(store, pair, init);
      var one := StageOne(store, pair, last);
      assert Staged(store, pair, klines) == staged + one;
      if x in staged {
        var k :| 0 <= k < |init| && init[k].Good?
               && x == RateRow(pair, init[k].close, MsToSeconds(init[k].openMs))
               && !RateExists(store, pair, MsToSeconds(init[k].openMs));
        assert init[k] == klines[k];
      } else if x in one {
        assert klines[|klines| - 1] == last;
      }
      if exists k :: 0 <= k < |klines| && klines[k].Good?
               && x == RateRow(pair, klines[k].close, MsToSeconds(klines[k].openMs))
               && !RateExists(store, pair, MsToSeconds(klines[k].openMs)) {
        var k :| 0 <= k < |klines| && klines[k].Good?
               && x == RateRow(pair, klines[k].close, MsToSeconds(klines[k].openMs))
               && !RateExists(store, pair, MsToSeconds(klines[k].openMs));
        if k < |init| {
          assert init[k] == klines[k];
        } else {
          assert x in one;
        }
      }
    }
  }

  /** The unit-test chunk: two good klines around a malformed one stage two rows and log one
      warning. */
  lemma InvalidKlineExample()
    ensures var ks := [Good(1703505600000, "98606.63"), Malformed, Good(1703505900000, "98650.50")];
      Staged([], "EUR/BTC", ks) == [RateRow("EUR/BTC", "98606.63", 1703505600), RateRow("EUR/BTC", "98650.50", 1703505900)]
      && Warnings("EUR/BTC", ks) == [KlineRejected("EUR/BTC")]
  {
    var ks := [Good(1703505600000, "98606.63"), Malformed, Good(1703505900000, "98650.50")];
    assert ks[..2] == [Good(1703505600000, "98606.63"), Malformed];
    assert ks[..2][..1] == [Good(1703505600000, "98606.63")];
    assert [Good(1703505600000, "98606.63")][..0] == [];
    assert !RateExists([RateRow("EUR/BTC", "98606.63", 1703505600)], "EUR/BTC", 1703505900);
  }

  /** No in-batch dedupe: two klines of the same second in one chunk are both staged. */
  lemma SameSecondBothStaged()
    ensures Staged([], "EUR/BTC", [Good(1703505600000, "1"), Good(1703505600500, "2")])
         == [RateRow("EUR/BTC", "1", 1703505600), RateRow("EUR/BTC", "2", 1703505600)]
  {
    var ks := [Good(1703505600000, "1"), Good(1703505600500, "2")];
    assert ks[..1] == [Good(1703505600000, "1")];
    assert [Good(1703505600000, "1")][..0] == [];
  }

  // ---- idempotence ---------------------------------------------------------------------

  /** Every well-formed kline of a chunk has its (pair, second) in the store. */
  predicate Covered(store: seq<RateRow>, pair: string, klines: seq<Kline>) {
    forall k :: 0 <= k < |klines| && klines[k].Good? ==> RateExists(store, pair, MsToSeconds(klines[k].openMs))
  }

  lemma CoveredGrows(store: seq<RateRow>, store': seq<RateRow>, pair: string, klines: seq<Kline>)
    requires Covered(store, pair, klines) && store <= store'
    ensures Covered(store', pair, klines)
  {
    assert store' == store + store'[|store|..];
    forall k | 0 <= k < |klines| && klines[k].Good? ensures RateExists(store', pair, MsToSeconds(klines[k].openMs)) {
      ExistsAfterAppend(store, store'[|store|..], pair, MsToSeconds(klines[k].openMs));
    }
  }

  /** After a chunk is saved, all of its well-formed klines are covered. */
  lemma {:induction false} SaveChunkCovers(store: seq<RateRow>, pair: string, klines: seq<Kline>)
    ensures Covered(store + Staged(store, pair, klines), pair, klines)
    decreases |klines|
  {
    if klines != [] {
      var init := klines[..|klines| - 1];
      SaveChunkCovers(store, pair, init);
      var mid := store + Staged(store, pair, init);
      var full := store + Staged(store, pair, klines);
      assert mid <= full;
      CoveredGrows(mid, full, pair, init);
      forall k | 0 <= k < |klines| && klines[k].Good? ensures RateExists(full, pair, MsToSeconds(klines[k].openMs)) {
        if k < |init| {
          assert klines[k] == init[k];
        } else {
          var t := MsToSeconds(klines[k].openMs);
          if RateExists(store, pair, t) {
            ExistsAfterAppend(store, Staged(store, pair, klines), pair, t);
          } else {
            assert full[|full| - 1] == RateRow(pair, klines[k].close, t);
          }
        }
      }
    }
  }

  lemma {:induction false} StagedWhenCovered(store: seq<RateRow>, pair: string, klines: seq<Kline>)
    requires Covered(store, pair, klines)
    ensures Staged(store, pair, klines) == []
    decreases |klines|
  {
    if klines != [] {
      var init := klines[..|klines| - 1];
      assert forall k :: 0 <= k < |init| ==> init[k] == klines[k];
      StagedWhenCovered(store, pair, init);
    }
  }

  /** Every chunk the loop gets klines for is covered (up to the first failing fetch). */
  predicate ChunksCovered(store: seq<RateRow>, pair: string, symbol: string, interval: string,
                          chunks: seq<(int, int)>, respond: Request -> FetchResult)
    decreases |chunks|
  {
    chunks == [] ||
    match respond(ChunkRequest(symbol, interval, chunks[0]))
    case FetchFailed => true
    case Fetched(klines) => Covered(store, pair, klines) && ChunksCovered(store, pair, symbol, interval, chunks[1..], respond)
  }

  lemma {:induction false} ChunksCoveredGrows(store: seq<RateRow>, store': seq<RateRow>, pair: string, symbol: string,
                                              interval: string, chunks: seq<(int, int)>, respond: Request -> FetchResult)
    requires ChunksCovered(store, pair, symbol, interval, chunks, respond) && store <= store'
    ensures ChunksCovered(store', pair, symbol, interval, chunks, respond)
    decreases |chunks|
  {
    if chunks != [] {
      match respond(ChunkRequest(symbol, interval, chunks[0]))
      case FetchFailed =>
      case Fetched(klines) =>
        CoveredGrows(store, store', pair, klines);
        ChunksCoveredGrows(store, store', pair, symbol, interval, chunks[1..], respond);
    }
  }

  lemma {:induction false} RunChunksCovers(e: Effects, pair: string, symbol: string, interval: string,
                                           chunks: seq<(int, int)>, respond: Request -> FetchResult)
    ensures ChunksCovered(RunChunks(e, pair, symbol, interval, chunks, respond).effects.store,
                          pair, symbol, interval, chunks, respond)
    decreases |chunks|
  {
    if chunks != [] {
      var req := ChunkRequest(symbol, interval, chunks[0]);
      var e1 := e.(log := e.log + [ChunkFetching(pair, chunks[0].0, chunks[0].1)],
                   requests := e.requests + [req]);
      match respond(req)
      case FetchFailed =>
      case Fetched(klines) =>
        var e2 := SaveChunk(e1, pair, klines);
        SaveChunkCovers(e1.store, pair, klines);
        RunChunksCovers(e2, pair, symbol, interval, chunks[1..], respond);
        RunChunksGrows(e2, pair, symbol, interval, chunks[1..], respond);
        var final := RunChunks(e2, pair, symbol, interval, chunks[1..], respond).effects.store;
        CoveredGrows(e2.store, final, pair, klines);
    }
  }

  /** A covered chunk loop writes nothing: the store stays as it was and no row is counted. */
  lemma {:induction false} RunChunksWhenCovered(e: Effects, pair: string, symbol: string, interval: string,
                                                chunks: seq<(int, int)>, respond: Request -> FetchResult)
    requires ChunksCovered(e.store, pair, symbol, interval, chunks, respond)
    ensures var o := RunChunks(e, pair, symbol, interval, chunks, respond);
      o.effects.store == e.store && o.inserted == 0
    decreases |chunks|
  {
    if chunks != [] {
      var req := ChunkRequest(symbol, interval, chunks[0]);
      var e1 := e.(log := e.log + [ChunkFetching(pair, chunks[0].0, chunks[0].1)],
                   requests := e.requests + [req]);
      match respond(req)
      case FetchFailed =>
      case Fetched(klines) =>
        StagedWhenCovered(e1.store, pair, klines);
        var e2 := SaveChunk(e1, pair, klines);
        assert e2.store == e.store;
        RunChunksWhenCovered(e2, pair, symbol, interval, chunks[1..], respond);
    }
  }

  predicate PairsCovered(store: seq<RateRow>, pairs: seq<(string, string)>, interval: string,
                         respond: Request -> FetchResult, start: int, end: int) {
    forall k :: 0 <= k < |pairs| ==> ChunksCovered(store, pairs[k].0, pairs[k].1, interval, Chunks(start, end), respond)
  }

  lemma {:induction false} RunPairsCovers(e: Effects, pairs: seq<(string, string)>, interval: string,
                                          respond: Request -> FetchResult, start: int, end: int)
    ensures PairsCovered(RunPairs(e, pairs, interval, respond, start, end).effects.store, pairs, interval, respond, start, end)
    decreases |pairs|
  {
    if pairs != [] {
      var p := pairs[0];
      var e1 := e.(log := e.log + [BackfillStarted(p.0, start, end)]);
      RunChunksCovers(e1, p.0, p.1, interval, Chunks(start, end), respond);
      var o := PairStep(e, p.0, p.1, interval, respond, start, end);
      RunPairsCovers(o.effects, pairs[1..], interval, respond, start, end);
      RunPairsOutcome(o.effects, pairs[1..], interval, respond, start, end);
      var final := RunPairs(o.effects, pairs[1..], interval, respond, start, end).effects.store;
      assert final == RunPairs(e, pairs, interval, respond, start, end).effects.store;
      ChunksCoveredGrows(o.effects.store, final, p.0, p.1, interval, Chunks(start, end), respond);
      forall k | 0 <= k < |pairs| ensures ChunksCovered(final, pairs[k].0, pairs[k].1, interval, Chunks(start, end), respond) {
        if k > 0 {
          assert pairs[k] == pairs[1..][k - 1];
        }
      }
    }
  }

  lemma {:induction false} RunPairsWhenCovered(e: Effects, pairs: seq<(string, string)>, interval: string,
                                               respond: Request -> FetchResult, start: int, end: int)
    requires PairsCovered(e.store, pairs, interval, respond, start, end)
    ensures var t := RunPairs(e, pairs, interval, respond, start, end);
      t.total == 0 && t.effects.store == e.store
    decreases |pairs|
  {
    if pairs != [] {
      var p := pairs[0];
      var e1 := e.(log := e.log + [BackfillStarted(p.0, start, end)]);
      RunChunksWhenCovered(e1, p.0, p.1, interval, Chunks(start, end), respond);
      var o := PairStep(e, p.0, p.1, interval, respond, start, end);
      assert forall k :: 0 <= k < |pairs[1..]| ==> pairs[1..][k] == pairs[k + 1];
      RunPairsWhenCovered(o.effects, pairs[1..], interval, respond, start, end);
    }
  }

  /** Repeating an identical backfill (same catalog, range, exchange answers) inserts nothing,
      leaves the store as the first run left it, and reports the same processed pairs and dates. */
  lemma BackfillIdempotent(e: Effects, catalog: seq<(string, string)>, interval: string,
                           respond: Request -> FetchResult, days: int, specific: Option<string>, now: int)
    ensures var first := Backfill(e, catalog, interval, respond, days, specific, now);
      var second := Backfill(first.1, catalog, interval, respond, days, specific, now);
      second.0.totalInserted == 0 && second.1.store == first.1.store
      && second.0.pairsProcessed == first.0.pairsProcessed
      && second.0.startDate == first.0.startDate && second.0.endDate == first.0.endDate
  {
    var pairs := ResolvePairs(catalog, specific);
    var start := RangeStart(now, days);
    RunPairsCovers(e, pairs, interval, respond, start, now);
    var t1 := RunPairs(e, pairs, interval, respond, start, now);
    RunPairsWhenCovered(t1.effects, pairs, interval, respond, start, now);
    RunPairsOutcome(e, pairs, interval, respond, start, now);
    RunPairsOutcome(t1.effects, pairs, interval, respond, start, now);
  }

  /** The store only grows under a backfill: no row is modified or removed. */
  lemma BackfillOnlyAppends(e: Effects, catalog: seq<(string, string)>, interval: string,
                            respond: Request -> FetchResult, days: int, specific: Option<string>, now: int)
    ensures var r := Backfill(e, catalog, interval, respond, days, specific, now);
      e.store <= r.1.store && r.0.totalInserted <= |r.1.store| - |e.store|
  {
    RunPairsOutcome(e, ResolvePairs(catalog, specific), interval, respond, RangeStart(now, days), now);
  }
}
