/** Signed transactions, pool metadata and the priority the pool orders by. */
module Transactions {
  import opened Common

  /**
    * A signed transaction.  `from` is the result of recovering the sender from the
    * signature: `None` when recovery fails.
    */
  datatype Tx = Tx(
    hash: Hash,
    from: Option<Address>,
    nonce: u64,
    to: Option<Address>,
    value: nat,
    gas: u64,
    gasPrice: nat,
    data: Bytes)

  datatype TxMeta = TxMeta(
    tx: Tx,
    tasteScore: real,
    priority: real,
    receivedAt: nat,
    sender: Address)

  const MAX_GWEI: nat := 100_000_000_000

  /** Gas price on a 0-1 scale, capped at 100 gwei; 0.5 stands in for a missing price. */
  function GasPriceFactor(gasPrice: nat): real {
    if gasPrice == 0 then 0.5
    else if gasPrice > MAX_GWEI then 1.0
    else gasPrice as real / MAX_GWEI as real
  }

  function PriorityOf(weight: real, gasPrice: nat, tasteScore: real): real {
    (1.0 - weight) * GasPriceFactor(gasPrice) + weight * tasteScore
  }

  method ComputePriority(m: TxMeta, tasteScoreWeight: real) returns (r: TxMeta)
    ensures r == m.(priority := PriorityOf(tasteScoreWeight, m.tx.gasPrice, m.tasteScore))
  {
    var gasPriceFactor := 0.5;
    if m.tx.gasPrice > 0 {
      var ratio := m.tx.gasPrice as real / MAX_GWEI as real;
      if ratio > 1.0 {
        ratio := 1.0;
      }
      gasPriceFactor := ratio;
    }
    r := m.(priority := (1.0 - tasteScoreWeight) * gasPriceFactor + tasteScoreWeight * m.tasteScore);
  }

  lemma FactorMonotone(p: nat, q: nat)
    requires 0 < p <= q
    ensures 0.0 < GasPriceFactor(p) <= GasPriceFactor(q) <= 1.0
    ensures GasPriceFactor(q) < 0.5 <==> q < 50_000_000_000
  {
    assert p as real <= q as real;
  }

  lemma ScaleKeeps(k: real, a: real, b: real)
    requires 0.0 <= k && a <= b
    ensures k * a <= k * b
  {
    assert k * (b - a) >= 0.0;
  }

  lemma ScaleKeepsStrictly(k: real, a: real, b: real)
    requires 0.0 < k && a < b
    ensures k * a < k * b
  {
    assert k * (b - a) > 0.0;
  }

  lemma Weighted(k: real, v: real, a: real, b: real, s: real, t: real)
    requires 0.0 <= k && 0.0 <= v && a <= b && s <= t
    ensures k * a + v * s <= k * b + v * t
  {
    ScaleKeeps(k, a, b);
    ScaleKeeps(v, s, t);
  }

  lemma WeightedStrictly(k: real, a: real, b: real, c: real)
    requires 0.0 < k
    ensures k * a + c > k * b + c <==> a > b
  {
    if a > b {
      ScaleKeepsStrictly(k, b, a);
    } else {
      ScaleKeeps(k, a, b);
    }
  }

  lemma MixMonotone(w: real, a: real, b: real, s: real, t: real)
    requires 0.0 <= w <= 1.0 && a <= b && s <= t
    ensures (1.0 - w) * a + w * s <= (1.0 - w) * b + w * t
  {
    Weighted(1.0 - w, w, a, b, s, t);
  }

  lemma MixStrict(w: real, a: real, b: real, s: real)
    requires 0.0 <= w < 1.0
    ensures (1.0 - w) * a + w * s > (1.0 - w) * b + w * s <==> a > b
  {
    WeightedStrictly(1.0 - w, a, b, w * s);
  }

  /** A positive price never hurts: priority grows with price, and with score, within [0, 1]. */
  lemma PriorityMonotone(w: real, p: nat, q: nat, s: real, t: real)
    requires 0.0 <= w <= 1.0
    requires 0 < p <= q && s <= t
    ensures PriorityOf(w, p, s) <= PriorityOf(w, q, t)
    ensures 0.0 <= s && t <= 1.0 ==> 0.0 <= PriorityOf(w, p, s) && PriorityOf(w, q, t) <= 1.0
  {
    FactorMonotone(p, q);
    var a, b := GasPriceFactor(p), GasPriceFactor(q);
    MixMonotone(w, a, b, s, t);
    if 0.0 <= s && t <= 1.0 {
      MixMonotone(w, 0.0, a, 0.0, s);
      MixMonotone(w, b, 1.0, t, 1.0);
    }
  }

  lemma FactorDifference(p: nat, q: nat)
    requires 0 < p <= q <= MAX_GWEI
    ensures GasPriceFactor(q) - GasPriceFactor(p) == (q - p) as real / 100_000_000_000.0
  {}

  lemma FactorStrict(p: nat, q: nat)
    requires 0 < p < q <= MAX_GWEI
    ensures GasPriceFactor(p) < GasPriceFactor(q)
  {
    assert p as real < q as real;
  }

  /** At equal score the higher price ranks strictly higher, up to 100 gwei, unless the score is all that counts. */
  lemma PriorityGrowsWithPrice(w: real, p: nat, q: nat, s: real)
    requires 0.0 <= w < 1.0 && 0 < p < q <= MAX_GWEI
    ensures PriorityOf(w, p, s) < PriorityOf(w, q, s)
  {
    hide GasPriceFactor;
    FactorStrict(p, q);
    MixStrict(w, GasPriceFactor(q), GasPriceFactor(p), s);
  }

  /** At equal price the priority moves with the score, by its weight: strictly, unless the price is all that counts. */
  lemma PriorityGrowsWithScore(w: real, p: nat, s: real, t: real)
    requires 0.0 <= w <= 1.0 && s < t
    ensures PriorityOf(w, p, t) - PriorityOf(w, p, s) == w * (t - s)
    ensures PriorityOf(w, p, s) < PriorityOf(w, p, t) <==> w > 0.0
  {
    ScoreDifference(w, p, s, t);
    hide PriorityOf;
    SignOf(w, t - s);
  }

  lemma ScoreDifference(w: real, p: nat, s: real, t: real)
    ensures PriorityOf(w, p, t) - PriorityOf(w, p, s) == w * (t - s)
  {
    hide GasPriceFactor;
    Distribute(w, t, s);
  }

  lemma SignOf(w: real, d: real)
    requires 0.0 <= w && 0.0 < d
    ensures w * d > 0.0 <==> w > 0.0
  {}

  lemma PriceMoves(k: real, a: real, b: real, c: real)
    ensures (k * b + c) - (k * a + c) == k * (b - a)
  {
    Distribute(k, b, a);
  }

  lemma Distribute(k: real, a: real, b: real)
    ensures k * (a - b) == k * a - k * b
  {}

  /** Between one wei and 100 gwei the priority moves in proportion to the price; above, nothing more is gained. */
  lemma PriorityIsLinear(w: real, p: nat, q: nat, s: real)
    requires 0 < p <= q
    ensures q <= 100_000_000_000 ==>
              PriorityOf(w, q, s) - PriorityOf(w, p, s) == (1.0 - w) * ((q - p) as real / 100_000_000_000.0)
    ensures p >= 100_000_000_000 ==> PriorityOf(w, q, s) == PriorityOf(w, p, s) == (1.0 - w) + w * s
  {
    if q <= MAX_GWEI {
      FactorDifference(p, q);
      hide GasPriceFactor;
      PriceMoves(1.0 - w, GasPriceFactor(p), GasPriceFactor(q), w * s);
    }
  }

  /**
    * Monotonicity stops at price zero: at equal score a free transaction is ordered
    * ahead of exactly those paying less than 50 gwei.
    */
  lemma FreeTransactionOvertakes(w: real, q: nat, s: real)
    requires 0.0 <= w < 1.0 && 0 < q
    ensures PriorityOf(w, 0, s) > PriorityOf(w, q, s) <==> q < 50_000_000_000
  {
    FactorMonotone(q, q);
    MixStrict(w, GasPriceFactor(0), GasPriceFactor(q), s);
  }
}
