/** The relational store behind Doctrine's EntityManager, and the persistence service that
    writes rate rows to it one at a time or in batches. */
module Persistence {
  import opened CryptoRateEntity

  /** The unit of work: `persist` stages a row, `flush` writes every staged row to the
      database. Queries see only `rows`, the flushed content. The table has a non-unique
      index on (pair, timestamp), so `rows` may hold duplicates. */
  class EntityManager {
    var rows: seq<RateRow>
    var pending: seq<RateRow>
    var flushes: nat

    constructor (initial: seq<RateRow>)
      ensures rows == initial && pending == [] && flushes == 0
    {
      rows, pending, flushes := initial, [], 0;
    }

    method Persist(r: RateRow)
      modifies this
      ensures pending == old(pending) + [r]
      ensures rows == old(rows) && flushes == old(flushes)
    {
      pending := pending + [r];
    }

    method Flush()
      modifies this
      ensures rows == old(rows) + old(pending) && pending == []
      ensures flushes == old(flushes) + 1
    {
      rows, pending := rows + pending, [];
      flushes := flushes + 1;
    }
  }

  /** The default `$batchSize` of `saveRatesBatch`. */
  const DefaultBatchSize: int := 100

  /** Flushes made by a batch save of n rows: one per full batch and the final one. */
  function FlushCount(n: nat, batchSize: int): (f: nat)
    requires batchSize > 0
    ensures f >= 1
  {
    n / batchSize + 1
  }

  /** Counting flushes of a growing prefix: index i (0-based) triggers a flush exactly when
      i + 1 is a multiple of the batch size. */
  lemma DivStep(i: nat, b: int)
    requires b > 0
    ensures (i + 1) / b == i / b + (if (i + 1) % b == 0 then 1 else 0)
  {
    var q, r := i / b, i % b;
    assert i == q * b + r && 0 <= r < b;
    if r == b - 1 {
      assert i + 1 == (q + 1) * b;
      DivModUnique(i + 1, b, q + 1, 0);
    } else {
      assert i + 1 == q * b + (r + 1);
      DivModUnique(i + 1, b, q, r + 1);
    }
  }

  lemma DivModUnique(n: int, b: int, q: int, r: int)
    requires b > 0 && n == q * b + r && 0 <= r < b
    ensures n / b == q && n % b == r
  {
    var q', r' := n / b, n % b;
    assert n == q' * b + r' && 0 <= r' < b;
    assert (q - q') * b == r' - r;
    if q > q' {
      MulAtLeast(q - q', b);
    } else if q < q' {
      MulAtLeast(q' - q, b);
    }
  }

  lemma MulAtLeast(d: int, b: int)
    requires d >= 1 && b > 0
    ensures d * b >= b
  {
    assert d * b == (d - 1) * b + b;
  }

  lemma FlushCountExamples()
    ensures FlushCount(250, DefaultBatchSize) == 3
    ensures FlushCount(25, 10) == 3
    ensures FlushCount(0, DefaultBatchSize) == 1
    ensures FlushCount(100, DefaultBatchSize) == 2
  {
  }

  class CryptoRatePersistenceService {
    const entityManager: EntityManager

    constructor (em: EntityManager)
      ensures entityManager == em
    {
      entityManager := em;
    }

    /** `saveRate`: one entity, built at the clock reading `createdAt`, persisted and one
        flush; whatever was staged before is written along with it. */
    method SaveRate(pair: string, rate: string, timestamp: int, createdAt: int)
      modifies entityManager
      ensures entityManager.rows == old(entityManager.rows) + old(entityManager.pending) + [RateRow(pair, rate, timestamp)]
      ensures entityManager.pending == []
      ensures entityManager.flushes == old(entityManager.flushes) + 1
    {
      var cryptoRate := new CryptoRate(createdAt);
      var _ := cryptoRate.SetPair(pair);
      var _ := cryptoRate.SetRate(rate);
      var _ := cryptoRate.SetTimestamp(timestamp);
      entityManager.Persist(cryptoRate.Row());
      entityManager.Flush();
    }

    /** `saveRatesBatch`: every given row is written, in input order and unchanged, with no
        deduplication; the return value is the number of rows; the manager is flushed after
        each full batch and once more at the end, even for an empty list. The entities are
        built at the clock reading `createdAt`. */
    method SaveRatesBatch(rates: seq<RateRow>, batchSize: int, createdAt: int) returns (inserted: int)
      requires batchSize > 0
      modifies entityManager
      ensures inserted == |rates|
      ensures entityManager.rows == old(entityManager.rows) + old(entityManager.pending) + rates
      ensures entityManager.pending == []
      ensures entityManager.flushes == old(entityManager.flushes) + FlushCount(|rates|, batchSize)
    {
      inserted := 0;
      for index := 0 to |rates|
        invariant inserted == index
        invariant entityManager.rows + entityManager.pending
          == old(entityManager.rows) + old(entityManager.pending) + rates[..index]
        invariant entityManager.flushes == old(entityManager.flushes) + index / batchSize
      {
        var rateData := rates[index];
        ghost var staged := entityManager.rows + entityManager.pending;
        var cryptoRate := new CryptoRate(createdAt);
        var _ := cryptoRate.SetPair(rateData.pair);
        var _ := cryptoRate.SetRate(rateData.rate);
        var _ := cryptoRate.SetTimestamp(rateData.timestamp);
        assert cryptoRate.Row() == rateData;
        entityManager.Persist(cryptoRate.Row());
        assert entityManager.rows + entityManager.pending == staged + [rateData];
        inserted := inserted + 1;
        DivStep(index, batchSize);
        if (index + 1) % batchSize == 0 {
          entityManager.Flush();
        }
        assert rates[..index + 1] == rates[..index] + [rateData];
      }
      entityManager.Flush();
      assert rates[..|rates|] == rates;
    }
  }
}
