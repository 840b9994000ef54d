/**
  * The size controller closed on itself: every block is popped under the limit the
  * controller set, and uses at most that limit and the fixed execution limit.
  */
module SizerLoop {
  import opened Common
  import opened FeeModel
  import opened AdaptiveSizer
  import opened ChainState

  /** The most gas a block popped under a limit can use. */
  function Usable(gasLimit: u64): u64 {
    if gasLimit < BLOCK_GAS then gasLimit else BLOCK_GAS
  }

  ghost predicate LoopAt(c: SizerConfig, s: Size, blocks: seq<Usage>, k: int) {
    0 <= k < |blocks| ==>
      && blocks[k].gasLimit == AdaptiveSizer.Run(c, s, blocks[..k]).gasLimit
      && blocks[k].gasUsed <= Usable(blocks[k].gasLimit)
  }

  ghost predicate ClosedLoop(c: SizerConfig, s: Size, blocks: seq<Usage>) {
    forall k: int {:trigger LoopAt(c, s, blocks, k)} :: LoopAt(c, s, blocks, k)
  }

  /** Full demand: every block uses all it can. */
  function Full(c: SizerConfig, s: Size, n: nat): (blocks: seq<Usage>)
    ensures |blocks| == n
  {
    if n == 0 then []
    else
      var front := Full(c, s, n - 1);
      var limit := AdaptiveSizer.Run(c, s, front).gasLimit;
      front + [Usage(Usable(limit), limit)]
  }

  lemma {:induction false} FullPrefix(c: SizerConfig, s: Size, n: nat, k: nat)
    requires k <= n
    ensures Full(c, s, n)[..k] == Full(c, s, k)
  {
    hide AdaptiveSizer.Run, Usable;
    if k < n {
      FullPrefix(c, s, n - 1, k);
      assert Full(c, s, n)[..n - 1] == Full(c, s, n - 1);
      assert Full(c, s, n)[..k] == Full(c, s, n - 1)[..k];
    }
  }

  lemma FullAt(c: SizerConfig, s: Size, n: nat, k: nat)
    requires k < n
    ensures var limit := AdaptiveSizer.Run(c, s, Full(c, s, k)).gasLimit;
            Full(c, s, n)[k] == Usage(Usable(limit), limit)
  {
    FullPrefix(c, s, n, k + 1);
    assert Full(c, s, n)[k] == Full(c, s, n)[..k + 1][k];
  }

  lemma FullIsLoop(c: SizerConfig, s: Size, n: nat)
    ensures ClosedLoop(c, s, Full(c, s, n))
  {
    forall k: int
      ensures LoopAt(c, s, Full(c, s, n), k)
    {
      if 0 <= k < n {
        FullAt(c, s, n, k);
        FullPrefix(c, s, n, k);
      }
    }
  }

  // ---------- utilization in the loop ----------

  lemma UseIs(b: Usage, u: real)
    requires b.gasLimit > 0
    ensures UsesAtLeast(b, u) <==> u * b.gasLimit as real <= b.gasUsed as real
    ensures UsesAtMost(b, u) <==> u * b.gasLimit as real >= b.gasUsed as real
  {
    var x, l := b.gasUsed as real / b.gasLimit as real, b.gasLimit as real;
    assert x * l == b.gasUsed as real;
    OrderByFactor(x, u, l);
  }

  lemma OrderByFactor(x: real, y: real, l: real)
    requires l > 0.0
    ensures x >= y <==> x * l >= y * l
    ensures x <= y <==> x * l <= y * l
  {
    if x >= y {
      assert (x - y) * l >= 0.0;
    } else {
      assert (y - x) * l > 0.0;
    }
  }

  /** Full use of a smaller limit is relatively no less than full use of a larger one. */
  lemma SmallerLimitUsesMore(limit: u64, top: u64, u: real)
    requires 0 < limit <= top && 0.0 <= u && u * top as real <= Usable(top) as real
    ensures u * limit as real <= Usable(limit) as real
  {
    var l, t := limit as real, top as real;
    assert Usable(top) <= top;
    OrderByFactor(u, 1.0, t);
    OrderByFactor(u, 1.0, l);
    FactorGrows(u, l, t);
  }

  lemma FactorGrows(u: real, l: real, t: real)
    requires 0.0 <= u && l <= t
    ensures u * l <= u * t
  {}

  /** What a block at the ceiling can use at most, as a utilization. */
  function TopUse(c: SizerConfig): real
    requires c.maxGas > 0
  {
    Usable(c.maxGas) as real / c.maxGas as real
  }

  lemma TopUseIs(c: SizerConfig)
    requires c.maxGas > 0
    ensures 0.0 <= TopUse(c) <= 1.0
    ensures TopUse(c) * c.maxGas as real == Usable(c.maxGas) as real
  {
    OrderByFactor(TopUse(c), 1.0, c.maxGas as real);
  }

  // ---------- sustained demand ----------

  /** A closed-loop run of a length in which every block uses at least u. */
  ghost predicate Sustains(c: SizerConfig, s: Size, u: real, blocks: seq<Usage>, n: nat) {
    && ClosedLoop(c, s, blocks) && |blocks| == n
    && forall b :: b in blocks ==> UsesAtLeast(b, u)
  }

  ghost predicate CanSustain(c: SizerConfig, s: Size, u: real, n: nat) {
    exists blocks :: Sustains(c, s, u, blocks, n)
  }

  lemma FullSustains(c: SizerConfig, s: Size, u: real, n: nat)
    requires ConfigOk(c) && NoWrap(c) && InBounds(c, s)
    requires 0.0 <= u && u * c.maxGas as real <= Usable(c.maxGas) as real
    ensures Sustains(c, s, u, Full(c, s, n), n)
  {
    hide NoWrap, UsesAtLeast, AdaptiveSizer.Run, Full;
    var blocks := Full(c, s, n);
    FullIsLoop(c, s, n);
    forall b | b in blocks
      ensures UsesAtLeast(b, u)
    {
      var k :| 0 <= k < n && blocks[k] == b;
      FullAt(c, s, n, k);
      RunInBounds(c, s, Full(c, s, k));
      SmallerLimitUsesMore(b.gasLimit, c.maxGas, u);
      UseIs(b, u);
    }
  }

  lemma SustainedNeeds(c: SizerConfig, s: Size, u: real, m: nat, n: nat, blocks: seq<Usage>)
    requires ConfigOk(c) && NoWrap(c) && InBounds(c, s) && s.ema >= 0.0
    requires 0.0 <= u && u > c.target + 0.1 && Enough(c, u, u - c.target - 0.1, m, n)
    requires Sustains(c, s, u, blocks, m + n + 1)
    ensures u * c.maxGas as real <= Usable(c.maxGas) as real
  {
    hide Enough, NoWrap, UsesAtLeast, AdaptiveSizer.Run;
    var k := m + n;
    assert forall b :: b in blocks[..k] ==> b in blocks;
    ReachesCeiling(c, s, blocks[..k], u, m, n);
    assert LoopAt(c, s, blocks, k);
    assert blocks[k] in blocks;
    UseIs(blocks[k], u);
  }

  /**
    * Demand past the threshold can outlast the climb to the ceiling if and only if a block
    * at the ceiling can use that much: u * maxGas <= min(maxGas, 30,000,000).
    */
  lemma SustainedExactly(c: SizerConfig, s: Size, u: real, m: nat, n: nat)
    requires ConfigOk(c) && NoWrap(c) && InBounds(c, s) && s.ema >= 0.0
    requires 0.0 <= u && u > c.target + 0.1 && Enough(c, u, u - c.target - 0.1, m, n)
    ensures CanSustain(c, s, u, m + n + 1) <==> u * c.maxGas as real <= Usable(c.maxGas) as real
  {
    hide Sustains, Enough, NoWrap;
    if u * c.maxGas as real <= Usable(c.maxGas) as real {
      FullSustains(c, s, u, m + n + 1);
    }
    if CanSustain(c, s, u, m + n + 1) {
      var blocks :| Sustains(c, s, u, blocks, m + n + 1);
      SustainedNeeds(c, s, u, m, n, blocks);
    }
  }

  /**
    * Whatever the configuration, full demand raises the limit to its ceiling, or to where a
    * full block no longer reaches utilization u, within the same count.
    */
  lemma FullDemandClimbs(c: SizerConfig, s: Size, u: real, m: nat, n: nat) returns (k: nat)
    requires ConfigOk(c) && NoWrap(c) && InBounds(c, s) && s.ema >= 0.0
    requires 0.0 <= u <= 1.0 && u > c.target + 0.1 && Enough(c, u, u - c.target - 0.1, m, n)
    ensures k <= m + n
    ensures var limit := AdaptiveSizer.Run(c, s, Full(c, s, k)).gasLimit;
            limit == c.maxGas || u * limit as real > BLOCK_GAS as real
  {
    hide Enough, NoWrap, UsesAtLeast, AdaptiveSizer.Run;
    k := 0;
    while k < m + n && u * AdaptiveSizer.Run(c, s, Full(c, s, k)).gasLimit as real <= BLOCK_GAS as real
      invariant k <= m + n
      invariant forall b :: b in Full(c, s, k) ==> UsesAtLeast(b, u)
    {
      var limit := AdaptiveSizer.Run(c, s, Full(c, s, k)).gasLimit;
      RunInBounds(c, s, Full(c, s, k));
      UseIs(Usage(Usable(limit), limit), u);
      OrderByFactor(1.0, u, limit as real);
      k := k + 1;
    }
    if k == m + n {
      ReachesCeiling(c, s, Full(c, s, k), u, m, n);
    }
  }

  // ---------- holding the ceiling ----------

  /** A closed-loop run of a length that never leaves the gas ceiling. */
  ghost predicate Holds(c: SizerConfig, s: Size, blocks: seq<Usage>, n: nat) {
    && ClosedLoop(c, s, blocks) && |blocks| == n
    && forall k :: 0 <= k <= n ==> AdaptiveSizer.Run(c, s, blocks[..k]).gasLimit == c.maxGas
  }

  ghost predicate HoldsFor(c: SizerConfig, s: Size, n: nat) {
    exists blocks :: Holds(c, s, blocks, n)
  }

  /** The gas limit has nowhere to go. */
  predicate Fixed(c: SizerConfig) {
    Step(c) == 0 || c.minGas == c.maxGas
  }

  predicate CanHold(c: SizerConfig)
    requires c.maxGas > 0
  {
    Fixed(c) || TopUse(c) >= c.target - 0.1
  }

  ghost predicate StaysUp(c: SizerConfig, s: Size) {
    InBounds(c, s) && s.gasLimit == c.maxGas && (Fixed(c) || !Quiet(c, s))
  }

  lemma FullBlockStaysUp(c: SizerConfig, s: Size)
    requires ConfigOk(c) && NoWrap(c) && CanHold(c) && StaysUp(c, s)
    ensures StaysUp(c, AdaptiveSizer.Adjust(c, s, Usable(c.maxGas), c.maxGas))
  {
    hide Step, TxStep;
    var ema := Average(c, s.ema, Usable(c.maxGas), c.maxGas);
    GrowMoves(c, s.(ema := ema));
    if !Fixed(c) {
      MixAbove(c.alpha, TopUse(c), s.ema, c.target - 0.1, 0.0);
    }
  }

  lemma {:induction false} FullHolds(c: SizerConfig, s: Size, n: nat)
    requires ConfigOk(c) && NoWrap(c) && CanHold(c) && StaysUp(c, s)
    ensures StaysUp(c, AdaptiveSizer.Run(c, s, Full(c, s, n)))
  {
    hide NoWrap, CanHold, AdaptiveSizer.Adjust;
    if n > 0 {
      FullHolds(c, s, n - 1);
      assert Full(c, s, n)[..n - 1] == Full(c, s, n - 1);
      FullBlockStaysUp(c, AdaptiveSizer.Run(c, s, Full(c, s, n - 1)));
    }
  }

  lemma FullHoldsThroughout(c: SizerConfig, s: Size, n: nat)
    requires ConfigOk(c) && NoWrap(c) && InBounds(c, s) && s.gasLimit == c.maxGas
    requires !Quiet(c, s) && CanHold(c)
    ensures Holds(c, s, Full(c, s, n), n)
  {
    FullIsLoop(c, s, n);
    forall k | 0 <= k <= n
      ensures AdaptiveSizer.Run(c, s, Full(c, s, n)[..k]).gasLimit == c.maxGas
    {
      FullPrefix(c, s, n, k);
      FullHolds(c, s, k);
    }
  }

  /** How long an average takes at most to cross a margin. */
  lemma TurnCount(gap: real, margin: real, alpha: real) returns (m: nat)
    requires 0.0 <= gap && 0.0 < margin && 0.0 < alpha
    ensures m > 0 && gap < margin * (1.0 + m as real * alpha)
  {
    var p := margin * alpha;
    assert p > 0.0;
    var q := gap / p;
    assert q * p == gap;
    OrderByFactor(q, 0.0, p);
    m := q.Floor + 1;
    var r := m as real;
    assert r > q;
    OrderByFactor(q, r, p);
    assert margin * (1.0 + r * alpha) == margin + r * p;
  }

  ghost predicate AtTop(c: SizerConfig, s: Size, blocks: seq<Usage>) {
    forall k :: 0 <= k < |blocks| ==> AdaptiveSizer.Run(c, s, blocks[..k]).gasLimit == c.maxGas
  }

  lemma TopBlocks(c: SizerConfig, s: Size, blocks: seq<Usage>)
    requires c.maxGas > 0 && ClosedLoop(c, s, blocks) && AtTop(c, s, blocks)
    ensures forall b :: b in blocks ==> UsesAtMost(b, TopUse(c)) && b.gasLimit > 0
  {
    hide AdaptiveSizer.Run, UsesAtMost;
    TopUseIs(c);
    forall b | b in blocks
      ensures UsesAtMost(b, TopUse(c)) && b.gasLimit > 0
    {
      var k :| 0 <= k < |blocks| && blocks[k] == b;
      assert LoopAt(c, s, blocks, k);
      UseIs(b, TopUse(c));
    }
  }

  /** Where the ceiling cannot be held, a closed-loop run that stayed at it for m blocks has left it. */
  lemma LeavesCeiling(c: SizerConfig, s: Size, m: nat, blocks: seq<Usage>)
    requires ConfigOk(c) && NoWrap(c) && InBounds(c, s) && s.ema <= 1.0
    requires !CanHold(c) && m > 0
    requires 1.0 - TopUse(c) < (c.target - 0.1 - TopUse(c)) * (1.0 + m as real * c.alpha)
    requires ClosedLoop(c, s, blocks) && |blocks| == m && AtTop(c, s, blocks)
    ensures AdaptiveSizer.Run(c, s, blocks).gasLimit < c.maxGas
  {
    hide AdaptiveSizer.Run, UsesAtMost, NoWrap, AtTop, TopUse;
    TopUseIs(c);
    TopBlocks(c, s, blocks);
    TurnsQuiet(c, s, blocks, TopUse(c));
    QuietLeft(c, s, blocks);
  }

  /** The block that turned the average quiet has lowered the limit. */
  lemma QuietLeft(c: SizerConfig, s: Size, blocks: seq<Usage>)
    requires ConfigOk(c) && NoWrap(c) && InBounds(c, s) && !Fixed(c)
    requires blocks != [] && (forall b :: b in blocks ==> b.gasLimit > 0)
    requires Quiet(c, AdaptiveSizer.Run(c, s, blocks))
    ensures AdaptiveSizer.Run(c, s, blocks).gasLimit < c.maxGas
  {
    var front, b := blocks[..|blocks| - 1], blocks[|blocks| - 1];
    var t := AdaptiveSizer.Run(c, s, front);
    RunInBounds(c, s, front);
    assert b in blocks;
    GrowMoves(c, t.(ema := Average(c, t.ema, b.gasUsed, b.gasLimit)));
  }

  /**
    * A sizer at its gas ceiling, with an average that is not quiet, can be held there for
    * ever if and only if the limit cannot move or a full block there does not count as
    * quiet: min(maxGas, 30,000,000) / maxGas >= target - 0.1.
    */
  lemma CeilingHeldExactly(c: SizerConfig, s: Size)
    requires ConfigOk(c) && NoWrap(c) && InBounds(c, s) && s.gasLimit == c.maxGas
    requires !Quiet(c, s) && s.ema <= 1.0
    ensures (forall n: nat :: HoldsFor(c, s, n)) <==> CanHold(c)
  {
    if CanHold(c) {
      forall n: nat
        ensures HoldsFor(c, s, n)
      {
        FullHoldsThroughout(c, s, n);
      }
    } else {
      TopUseIs(c);
      var m := TurnCount(1.0 - TopUse(c), c.target - 0.1 - TopUse(c), c.alpha);
      forall blocks
        ensures !Holds(c, s, blocks, m)
      {
        assert blocks[..|blocks|] == blocks;
        if |blocks| == m && ClosedLoop(c, s, blocks) && AtTop(c, s, blocks) {
          LeavesCeiling(c, s, m, blocks);
        }
      }
      assert !HoldsFor(c, s, m);
    }
  }

  // ---------- the shipped configuration ----------

  const DEFAULT: SizerConfig := SizerConfig(15_000_000, 60_000_000, 1_000, 10_000, 0.2, 0.5, 500)

  /**
    * With the default configuration nothing wraps and 20 steps cover both ranges, 19 do
    * not.  Demand past the threshold cannot last at the ceiling, since 0.6 of 60M is more
    * than 30M; but a full block there uses half of the limit, so a ceiling once reached can
    * be held.
    */
  lemma DefaultConfiguration(n: nat)
    ensures ConfigOk(DEFAULT) && NoWrap(DEFAULT)
    ensures Step(DEFAULT) == 2_250_000 && TxStep(DEFAULT) == 450
    ensures Covers(DEFAULT, n) <==> n >= 20
    ensures (DEFAULT.target + 0.1) * DEFAULT.maxGas as real > Usable(DEFAULT.maxGas) as real
    ensures TopUse(DEFAULT) == 0.5 && CanHold(DEFAULT)
  {
    assert Step(DEFAULT) == 2_250_000 by {
      WrapSmall(45_000_000 * 500);
    }
  }
}
