/** The adaptive block size controller: gas limit and transaction cap follow an average of block fullness. */
module AdaptiveSizer {
  import opened Common
  import FeeModel

  datatype SizerConfig = SizerConfig(
    minGas: u64,
    maxGas: u64,
    minTx: int,
    maxTx: int,
    alpha: real,
    target: real,
    stepBps: u64)

  datatype Size = Size(gasLimit: u64, maxTx: int, ema: real)

  function Step(c: SizerConfig): u64 {
    Wrap64(Wrap64(c.maxGas - c.minGas) * c.stepBps) / 10000
  }

  /** Truncated toward zero, and at least 1. */
  function TxStep(c: SizerConfig): (r: int)
    ensures r >= 1
  {
    var x := (c.maxTx - c.minTx) as real * c.stepBps as real / 10000.0;
    var t := if x >= 0.0 then x.Floor else -(-x).Floor;
    if t < 1 then 1 else t
  }

  function Average(c: SizerConfig, ema: real, gasUsed: u64, gasLimit: u64): real
    requires gasLimit > 0
  {
    c.alpha * (gasUsed as real / gasLimit as real) + (1.0 - c.alpha) * ema
  }

  function Grow(c: SizerConfig, s: Size): Size {
    s.(gasLimit := Min(Wrap64(s.gasLimit + Step(c)), c.maxGas), maxTx := Min(s.maxTx + TxStep(c), c.maxTx))
  }

  function Shrink(c: SizerConfig, s: Size): Size {
    s.(gasLimit := Max(Wrap64(s.gasLimit - Step(c)), c.minGas), maxTx := Max(s.maxTx - TxStep(c), c.minTx))
  }

  function Adjust(c: SizerConfig, s: Size, gasUsed: u64, gasLimit: u64): Size {
    if gasLimit == 0 then s
    else
      var t := s.(ema := Average(c, s.ema, gasUsed, gasLimit));
      if t.ema > c.target + 0.1 then Grow(c, t)
      else if t.ema < c.target - 0.1 then Shrink(c, t)
      else t
  }

  class AdaptiveBlockSizer {
    const cfg: SizerConfig
    var currentGasLimit: u64
    var currentMaxTx: int
    var utilizationEMA: real

    ghost function View(): Size
      reads this
    {
      Size(currentGasLimit, currentMaxTx, utilizationEMA)
    }

    constructor (cfg: SizerConfig, initialGas: u64, initialMaxTx: int)
      ensures this.cfg == cfg && View() == Size(initialGas, initialMaxTx, cfg.target)
    {
      this.cfg := cfg;
      currentGasLimit, currentMaxTx, utilizationEMA := initialGas, initialMaxTx, cfg.target;
    }

    /** Basis points of the range, for gas and for transactions. */
    method Steps() returns (step: u64, txStep: int)
      ensures step == Step(cfg) && txStep == TxStep(cfg)
    {
      var gasRange := Wrap64(cfg.maxGas - cfg.minGas);
      step := Wrap64(gasRange * cfg.stepBps) / 10000;
      var txRange := cfg.maxTx - cfg.minTx;
      var share := txRange as real * cfg.stepBps as real / 10000.0;
      txStep := if share >= 0.0 then share.Floor else -(-share).Floor;
      if txStep < 1 {
        txStep := 1;
      }
    }

    method AdjustAfterBlock(gasUsed: u64, gasLimit: u64)
      modifies this
      ensures View() == Adjust(cfg, old(View()), gasUsed, gasLimit)
    {
      hide Step, TxStep;
      if gasLimit == 0 {
        assert Adjust(cfg, View(), gasUsed, gasLimit) == View();
        return;
      }
      var utilization := gasUsed as real / gasLimit as real;
      utilizationEMA := cfg.alpha * utilization + (1.0 - cfg.alpha) * utilizationEMA;
      var step, txStep := Steps();
      if utilizationEMA > cfg.target + 0.1 {
        currentGasLimit := Min(Wrap64(currentGasLimit + step), cfg.maxGas);
        currentMaxTx := Min(currentMaxTx + txStep, cfg.maxTx);
      } else if utilizationEMA < cfg.target - 0.1 {
        currentGasLimit := Max(Wrap64(currentGasLimit - step), cfg.minGas);
        currentMaxTx := Max(currentMaxTx - txStep, cfg.minTx);
      }
    }
  }

  // ---------- bounds ----------

  predicate ConfigOk(c: SizerConfig) {
    0 < c.minGas <= c.maxGas && c.minTx <= c.maxTx && 0.0 < c.alpha <= 1.0
  }

  predicate InBounds(c: SizerConfig, s: Size) {
    c.minGas <= s.gasLimit <= c.maxGas && c.minTx <= s.maxTx <= c.maxTx
  }

  /** Neither `currentGasLimit+step` nor `currentGasLimit-step` can wrap while the limit is in bounds. */
  predicate NoWrap(c: SizerConfig) {
    Step(c) <= c.minGas && c.maxGas + Step(c) < U64
  }

  /** Without wrap-around every block keeps both settings in bounds, whatever it used. */
  lemma StepInBounds(c: SizerConfig, s: Size, gasUsed: u64, gasLimit: u64)
    requires ConfigOk(c) && NoWrap(c) && InBounds(c, s)
    ensures InBounds(c, Adjust(c, s, gasUsed, gasLimit))
  {
    WrapSmall(s.gasLimit + Step(c));
    WrapSmall(s.gasLimit - Step(c));
  }

  /** Where no product wraps, both steps are their share of the range in basis points, rounded down, the second at least 1. */
  lemma StepsAre(c: SizerConfig)
    requires c.minGas <= c.maxGas && c.minTx <= c.maxTx && (c.maxGas - c.minGas) * c.stepBps < U64
    ensures Step(c) == (c.maxGas - c.minGas) * c.stepBps / 10000
    ensures TxStep(c) == Max((c.maxTx - c.minTx) * c.stepBps / 10000, 1)
  {
    WrapSmall(c.maxGas - c.minGas);
    WrapSmall((c.maxGas - c.minGas) * c.stepBps);
    FloorOfShare((c.maxTx - c.minTx), c.stepBps);
  }

  lemma FloorOfShare(x: nat, bps: nat)
    ensures (x as real * bps as real / 10000.0).Floor == x * bps / 10000
  {
    var p := x * bps;
    assert x as real * bps as real == p as real;
    var q, r := p / 10000, p % 10000;
    assert p == 10000 * q + r;
    assert p as real / 10000.0 == q as real + r as real / 10000.0;
  }

  /**
    * How the settings move: up by one step, clipped at the ceiling, when the new average is
    * more than 0.1 above the target; down by one step, clipped at the floor, when it is more
    * than 0.1 below; and not at all in between, or without a limit to compare with.
    */
  lemma SettingsMoveExactly(c: SizerConfig, s: Size, gasUsed: u64, gasLimit: u64)
    requires ConfigOk(c) && NoWrap(c) && InBounds(c, s) && gasLimit > 0
    ensures var z := Adjust(c, s, gasUsed, gasLimit);
            var e := c.alpha * (gasUsed as real / gasLimit as real) + (1.0 - c.alpha) * s.ema;
            && z.ema == e
            && (e > c.target + 0.1 ==>
                  z.gasLimit == Min(s.gasLimit + Step(c), c.maxGas) && z.maxTx == Min(s.maxTx + TxStep(c), c.maxTx))
            && (e < c.target - 0.1 ==>
                  z.gasLimit == Max(s.gasLimit - Step(c), c.minGas) && z.maxTx == Max(s.maxTx - TxStep(c), c.minTx))
            && (c.target - 0.1 <= e <= c.target + 0.1 ==> z.gasLimit == s.gasLimit && z.maxTx == s.maxTx)
    ensures Adjust(c, s, gasUsed, 0) == s
  {
    hide Step, TxStep;
    GrowMoves(c, s.(ema := Average(c, s.ema, gasUsed, gasLimit)));
  }

  lemma GrowMoves(c: SizerConfig, s: Size)
    requires ConfigOk(c) && NoWrap(c) && InBounds(c, s)
    ensures Grow(c, s).gasLimit == Min(s.gasLimit + Step(c), c.maxGas)
    ensures Shrink(c, s).gasLimit == Max(s.gasLimit - Step(c), c.minGas)
    ensures InBounds(c, Grow(c, s)) && InBounds(c, Shrink(c, s))
  {
    WrapSmall(s.gasLimit + Step(c));
    WrapSmall(s.gasLimit - Step(c));
  }

  /** The condition is exact: shrinking never raises an in-bounds limit if and only if the step is at most the minimum. */
  lemma ShrinkExactly(c: SizerConfig)
    requires ConfigOk(c)
    ensures (forall s: Size :: InBounds(c, s) ==> Shrink(c, s).gasLimit <= s.gasLimit) <==> Step(c) <= c.minGas
  {
    hide Step, TxStep;
    var low := Size(c.minGas, c.minTx, 0.0);
    if Step(c) > c.minGas {
      WrapOnce(c.minGas - Step(c), 1);
      assert Shrink(c, low).gasLimit > low.gasLimit;
    } else {
      forall s: Size | InBounds(c, s)
        ensures Shrink(c, s).gasLimit <= s.gasLimit
      {
        WrapSmall(s.gasLimit - Step(c));
      }
    }
  }

  /** Growing never lowers an in-bounds limit if and only if the maximum plus the step fits in 64 bits. */
  lemma GrowExactly(c: SizerConfig)
    requires ConfigOk(c)
    ensures (forall s: Size :: InBounds(c, s) ==> Grow(c, s).gasLimit >= s.gasLimit) <==> c.maxGas + Step(c) < U64
  {
    hide Step, TxStep;
    var high := Size(c.maxGas, c.minTx, 0.0);
    if c.maxGas + Step(c) >= U64 {
      WrapOnce(c.maxGas + Step(c), -1);
      assert Grow(c, high).gasLimit < high.gasLimit;
    } else {
      forall s: Size | InBounds(c, s)
        ensures Grow(c, s).gasLimit >= s.gasLimit
      {
        WrapSmall(s.gasLimit + Step(c));
      }
    }
  }

  lemma WrapOnce(x: int, q: int)
    requires 0 <= x + q * 0x1_0000_0000_0000_0000 < U64
    ensures Wrap64(x) == x + q * 0x1_0000_0000_0000_0000
  {}

  // ---------- runs ----------

  function Run(c: SizerConfig, s: Size, blocks: seq<FeeModel.Usage>): Size {
    if blocks == [] then s
    else
      var b := blocks[|blocks| - 1];
      Adjust(c, Run(c, s, blocks[..|blocks| - 1]), b.gasUsed, b.gasLimit)
  }

  lemma {:induction false} RunInBounds(c: SizerConfig, s: Size, blocks: seq<FeeModel.Usage>)
    requires ConfigOk(c) && NoWrap(c) && InBounds(c, s)
    ensures InBounds(c, Run(c, s, blocks))
  {
    if blocks != [] {
      var b := blocks[|blocks| - 1];
      RunInBounds(c, s, blocks[..|blocks| - 1]);
      StepInBounds(c, Run(c, s, blocks[..|blocks| - 1]), b.gasUsed, b.gasLimit);
    }
  }

  lemma {:induction false} RunSplit(c: SizerConfig, s: Size, a: seq<FeeModel.Usage>, b: seq<FeeModel.Usage>)
    ensures Run(c, s, a + b) == Run(c, Run(c, s, a), b)
  {
    if b == [] {
      assert a + b == a;
    } else {
      assert (a + b)[..|a + b| - 1] == a + b[..|b| - 1];
      RunSplit(c, s, a, b[..|b| - 1]);
    }
  }

  // ---------- the average under sustained demand ----------

  predicate UsesAtLeast(b: FeeModel.Usage, u: real) {
    b.gasLimit > 0 && b.gasUsed as real / b.gasLimit as real >= u
  }

  predicate UsesAtMost(b: FeeModel.Usage, u: real) {
    b.gasLimit > 0 && b.gasUsed as real / b.gasLimit as real <= u
  }

  /** What n steps of the average leave of an initial gap. */
  function Gap(alpha: real, gap: real, n: nat): real {
    if n == 0 then gap else (1.0 - alpha) * Gap(alpha, gap, n - 1)
  }

  lemma Shrinks(alpha: real, g: real, g': real, k: real, k': real)
    requires 0.0 <= alpha <= 1.0 && 0.0 <= g && k >= 0.0
    requires g' == (1.0 - alpha) * g && k' == k + 1.0
    ensures g' * (1.0 + k' * alpha) <= g * (1.0 + k * alpha)
  {
    var p, q := (1.0 - alpha) * (1.0 + k' * alpha), 1.0 + k * alpha;
    assert p == q - (k + 1.0) * (alpha * alpha);
    assert (k + 1.0) * (alpha * alpha) >= 0.0;
    assert g * p <= g * q;
    assert g' * (1.0 + k' * alpha) == g * p;
  }

  function Growth(alpha: real, n: nat): real {
    1.0 + n as real * alpha
  }

  function Weighted(alpha: real, gap: real, n: nat): real {
    Gap(alpha, gap, n) * Growth(alpha, n)
  }

  lemma WeightedFalls(alpha: real, gap: real, n: nat)
    requires 0.0 <= alpha <= 1.0 && 0.0 <= Gap(alpha, gap, n)
    ensures Weighted(alpha, gap, n + 1) <= Weighted(alpha, gap, n)
  {
    Shrinks(alpha, Gap(alpha, gap, n), Gap(alpha, gap, n + 1), n as real, (n + 1) as real);
  }

  /** The gap falls at least as fast as 1 / (1 + n alpha). */
  lemma {:induction false} GapBound(alpha: real, gap: real, n: nat)
    requires 0.0 <= alpha <= 1.0 && 0.0 <= gap
    ensures 0.0 <= Gap(alpha, gap, n) && Weighted(alpha, gap, n) <= gap
  {
    if n > 0 {
      GapBound(alpha, gap, n - 1);
      WeightedFalls(alpha, gap, n - 1);
      ProductNonnegative(1.0 - alpha, Gap(alpha, gap, n - 1));
    }
  }

  lemma ProductNonnegative(a: real, b: real)
    requires a >= 0.0 && b >= 0.0
    ensures a * b >= 0.0
  {}

  lemma MixAbove(alpha: real, x: real, e: real, u: real, g: real)
    requires 0.0 <= alpha <= 1.0 && x >= u && e >= u - g
    ensures alpha * x + (1.0 - alpha) * e >= u - (1.0 - alpha) * g
  {
    assert alpha * x >= alpha * u;
    assert (1.0 - alpha) * e >= (1.0 - alpha) * (u - g);
  }

  lemma MixBelow(alpha: real, x: real, e: real, u: real, g: real)
    requires 0.0 <= alpha <= 1.0 && x <= u && e <= u + g
    ensures alpha * x + (1.0 - alpha) * e <= u + (1.0 - alpha) * g
  {
    assert alpha * x <= alpha * u;
    assert (1.0 - alpha) * e <= (1.0 - alpha) * (u + g);
  }

  lemma {:induction false} AverageRises(c: SizerConfig, s: Size, blocks: seq<FeeModel.Usage>, u: real)
    requires ConfigOk(c) && s.ema >= 0.0
    requires forall b :: b in blocks ==> UsesAtLeast(b, u)
    ensures Run(c, s, blocks).ema >= u - Gap(c.alpha, u, |blocks|)
  {
    hide Adjust;
    if blocks != [] {
      var b, front := blocks[|blocks| - 1], blocks[..|blocks| - 1];
      AverageRises(c, s, front, u);
      assert b in blocks;
      MixAbove(c.alpha, b.gasUsed as real / b.gasLimit as real, Run(c, s, front).ema, u, Gap(c.alpha, u, |front|));
      AdjustAverages(c, Run(c, s, front), b);
    }
  }

  lemma {:induction false} AverageFalls(c: SizerConfig, s: Size, blocks: seq<FeeModel.Usage>, u: real)
    requires ConfigOk(c) && s.ema <= 1.0
    requires forall b :: b in blocks ==> UsesAtMost(b, u)
    ensures Run(c, s, blocks).ema <= u + Gap(c.alpha, 1.0 - u, |blocks|)
  {
    hide Adjust;
    if blocks != [] {
      var b, front := blocks[|blocks| - 1], blocks[..|blocks| - 1];
      AverageFalls(c, s, front, u);
      assert b in blocks;
      MixBelow(c.alpha, b.gasUsed as real / b.gasLimit as real, Run(c, s, front).ema, u, Gap(c.alpha, 1.0 - u, |front|));
      AdjustAverages(c, Run(c, s, front), b);
    }
  }

  lemma AdjustAverages(c: SizerConfig, s: Size, b: FeeModel.Usage)
    requires b.gasLimit > 0
    ensures Adjust(c, s, b.gasUsed, b.gasLimit).ema == Average(c, s.ema, b.gasUsed, b.gasLimit)
  {}

  // ---------- the settings under sustained demand ----------

  lemma MixStays(alpha: real, x: real, e: real, k: real)
    requires 0.0 <= alpha <= 1.0
    ensures x > k && e > k ==> alpha * x + (1.0 - alpha) * e > k
    ensures x < k && e < k ==> alpha * x + (1.0 - alpha) * e < k
  {
    var low, high := if x < e then x else e, if x < e then e else x;
    MixAbove(alpha, x, e, low, 0.0);
    MixBelow(alpha, x, e, high, 0.0);
  }

  predicate Busy(c: SizerConfig, s: Size) {
    s.ema > c.target + 0.1
  }

  predicate Quiet(c: SizerConfig, s: Size) {
    s.ema < c.target - 0.1
  }

  /** While the average is past the threshold and the blocks are too, every block takes a full step. */
  lemma BusyStep(c: SizerConfig, s: Size, b: FeeModel.Usage, u: real)
    requires ConfigOk(c) && Busy(c, s) && UsesAtLeast(b, u) && u > c.target + 0.1
    ensures var t := Adjust(c, s, b.gasUsed, b.gasLimit);
            Busy(c, t) && t == Grow(c, s).(ema := t.ema)
  {
    MixStays(c.alpha, b.gasUsed as real / b.gasLimit as real, s.ema, c.target + 0.1);
  }

  lemma QuietStep(c: SizerConfig, s: Size, b: FeeModel.Usage, u: real)
    requires ConfigOk(c) && Quiet(c, s) && UsesAtMost(b, u) && u < c.target - 0.1
    ensures var t := Adjust(c, s, b.gasUsed, b.gasLimit);
            Quiet(c, t) && t == Shrink(c, s).(ema := t.ema)
  {
    MixStays(c.alpha, b.gasUsed as real / b.gasLimit as real, s.ema, c.target - 0.1);
  }

  function Climb(n: nat, step: nat): nat {
    n * step
  }

  lemma ClimbNext(n: nat, step: nat)
    ensures Climb(n + 1, step) == Climb(n, step) + step
  {}

  /** n full steps from anywhere in bounds. */
  lemma {:induction false} BusyRun(c: SizerConfig, s: Size, blocks: seq<FeeModel.Usage>, u: real)
    requires ConfigOk(c) && NoWrap(c) && InBounds(c, s) && Busy(c, s) && u > c.target + 0.1
    requires forall b :: b in blocks ==> UsesAtLeast(b, u)
    ensures var t := Run(c, s, blocks);
            && Busy(c, t) && InBounds(c, t)
            && t.gasLimit >= Min(s.gasLimit + Climb(|blocks|, Step(c)), c.maxGas)
            && t.maxTx >= Min(s.maxTx + Climb(|blocks|, TxStep(c)), c.maxTx)
  {
    hide Step, TxStep, Climb, Adjust, UsesAtLeast;
    if blocks != [] {
      var b, front := blocks[|blocks| - 1], blocks[..|blocks| - 1];
      BusyRun(c, s, front, u);
      assert b in blocks;
      var t := Run(c, s, front);
      BusyStep(c, t, b, u);
      GrowMoves(c, t);
      ClimbNext(|front|, Step(c));
      ClimbNext(|front|, TxStep(c));
    } else {
      ClimbNothing(Step(c));
      ClimbNothing(TxStep(c));
    }
  }

  lemma {:induction false} QuietRun(c: SizerConfig, s: Size, blocks: seq<FeeModel.Usage>, u: real)
    requires ConfigOk(c) && NoWrap(c) && InBounds(c, s) && Quiet(c, s) && u < c.target - 0.1
    requires forall b :: b in blocks ==> UsesAtMost(b, u)
    ensures var t := Run(c, s, blocks);
            && Quiet(c, t) && InBounds(c, t)
            && t.gasLimit <= Max(s.gasLimit - Climb(|blocks|, Step(c)), c.minGas)
            && t.maxTx <= Max(s.maxTx - Climb(|blocks|, TxStep(c)), c.minTx)
  {
    hide Step, TxStep, Climb, Adjust, UsesAtMost;
    if blocks != [] {
      var b, front := blocks[|blocks| - 1], blocks[..|blocks| - 1];
      QuietRun(c, s, front, u);
      assert b in blocks;
      var t := Run(c, s, front);
      QuietStep(c, t, b, u);
      GrowMoves(c, t);
      ClimbNext(|front|, Step(c));
      ClimbNext(|front|, TxStep(c));
    } else {
      ClimbNothing(Step(c));
      ClimbNothing(TxStep(c));
    }
  }

  lemma ClimbNothing(step: nat)
    ensures Climb(0, step) == 0
  {}

  lemma SplitDemand(blocks: seq<FeeModel.Usage>, m: nat)
    requires m <= |blocks|
    ensures blocks == blocks[..m] + blocks[m..]
    ensures forall b :: b in blocks[..m] || b in blocks[m..] ==> b in blocks
  {}

  /** After m blocks a gap to a sustained level has shrunk to less than the margin. */
  predicate Turns(c: SizerConfig, gap: real, margin: real, m: nat) {
    gap < margin * Growth(c.alpha, m)
  }

  /** m blocks turn the average, n more steps cover both ranges. */
  predicate Enough(c: SizerConfig, gap: real, margin: real, m: nat, n: nat) {
    Turns(c, gap, margin, m) && Covers(c, n)
  }

  predicate Covers(c: SizerConfig, n: nat) {
    Climb(n, Step(c)) >= c.maxGas - c.minGas && Climb(n, TxStep(c)) >= c.maxTx - c.minTx
  }

  predicate AtCeiling(c: SizerConfig, s: Size) {
    s.gasLimit == c.maxGas && s.maxTx == c.maxTx
  }

  predicate AtFloor(c: SizerConfig, s: Size) {
    s.gasLimit == c.minGas && s.maxTx == c.minTx
  }

  lemma TurnsBusy(c: SizerConfig, s: Size, blocks: seq<FeeModel.Usage>, u: real)
    requires ConfigOk(c) && s.ema >= 0.0 && 0.0 <= u && u > c.target + 0.1
    requires forall b :: b in blocks ==> UsesAtLeast(b, u)
    requires Turns(c, u, u - c.target - 0.1, |blocks|)
    ensures Busy(c, Run(c, s, blocks))
  {
    hide Adjust, UsesAtLeast, Gap, Turns;
    AverageRises(c, s, blocks, u);
    GapClosed(c, u, u - c.target - 0.1, |blocks|);
  }

  lemma TurnsQuiet(c: SizerConfig, s: Size, blocks: seq<FeeModel.Usage>, u: real)
    requires ConfigOk(c) && s.ema <= 1.0 && u <= 1.0 && u < c.target - 0.1
    requires forall b :: b in blocks ==> UsesAtMost(b, u)
    requires Turns(c, 1.0 - u, c.target - 0.1 - u, |blocks|)
    ensures Quiet(c, Run(c, s, blocks))
  {
    hide Adjust, UsesAtMost, Gap, Turns;
    AverageFalls(c, s, blocks, u);
    GapClosed(c, 1.0 - u, c.target - 0.1 - u, |blocks|);
  }

  lemma BusyReaches(c: SizerConfig, s: Size, blocks: seq<FeeModel.Usage>, u: real, n: nat)
    requires ConfigOk(c) && NoWrap(c) && InBounds(c, s) && Busy(c, s) && u > c.target + 0.1
    requires forall b :: b in blocks ==> UsesAtLeast(b, u)
    requires Covers(c, n) && |blocks| >= n
    ensures AtCeiling(c, Run(c, s, blocks))
  {
    hide Step, TxStep, Climb, Adjust, UsesAtLeast;
    BusyRun(c, s, blocks, u);
    StepsCover(n, |blocks|, Step(c));
    StepsCover(n, |blocks|, TxStep(c));
  }

  lemma QuietReaches(c: SizerConfig, s: Size, blocks: seq<FeeModel.Usage>, u: real, n: nat)
    requires ConfigOk(c) && NoWrap(c) && InBounds(c, s) && Quiet(c, s) && u < c.target - 0.1
    requires forall b :: b in blocks ==> UsesAtMost(b, u)
    requires Covers(c, n) && |blocks| >= n
    ensures AtFloor(c, Run(c, s, blocks))
  {
    hide Step, TxStep, Climb, Adjust, UsesAtMost;
    QuietRun(c, s, blocks, u);
    StepsCover(n, |blocks|, Step(c));
    StepsCover(n, |blocks|, TxStep(c));
  }

  /**
    * Sustained demand at utilization u above target + 0.1 drives gas limit and transaction
    * cap to their ceilings: after m blocks the average is past the threshold, where
    * u < (u - target - 0.1)(1 + m alpha), and n steps later, n gas steps covering the gas
    * range and n transaction steps the range of the cap, both are at the top.
    */
  lemma ReachesCeiling(c: SizerConfig, s: Size, blocks: seq<FeeModel.Usage>, u: real, m: nat, n: nat)
    requires ConfigOk(c) && NoWrap(c) && InBounds(c, s) && s.ema >= 0.0
    requires 0.0 <= u && u > c.target + 0.1
    requires forall b :: b in blocks ==> UsesAtLeast(b, u)
    requires Enough(c, u, u - c.target - 0.1, m, n) && |blocks| >= m + n
    ensures AtCeiling(c, Run(c, s, blocks))
  {
    hide Covers, Turns, Adjust, UsesAtLeast, AtCeiling;
    SplitDemand(blocks, m);
    RunSplit(c, s, blocks[..m], blocks[m..]);
    TurnsBusy(c, s, blocks[..m], u);
    RunInBounds(c, s, blocks[..m]);
    BusyReaches(c, Run(c, s, blocks[..m]), blocks[m..], u, n);
  }

  /** Sustained quiet at utilization u below target - 0.1 drives both to their floors. */
  lemma ReachesFloor(c: SizerConfig, s: Size, blocks: seq<FeeModel.Usage>, u: real, m: nat, n: nat)
    requires ConfigOk(c) && NoWrap(c) && InBounds(c, s) && s.ema <= 1.0
    requires u <= 1.0 && u < c.target - 0.1
    requires forall b :: b in blocks ==> UsesAtMost(b, u)
    requires Enough(c, 1.0 - u, c.target - 0.1 - u, m, n) && |blocks| >= m + n
    ensures AtFloor(c, Run(c, s, blocks))
  {
    hide Covers, Turns, Adjust, UsesAtMost, AtFloor;
    SplitDemand(blocks, m);
    RunSplit(c, s, blocks[..m], blocks[m..]);
    TurnsQuiet(c, s, blocks[..m], u);
    RunInBounds(c, s, blocks[..m]);
    QuietReaches(c, Run(c, s, blocks[..m]), blocks[m..], u, n);
  }

  lemma GapClosed(c: SizerConfig, gap: real, margin: real, m: nat)
    requires ConfigOk(c) && 0.0 <= gap && 0.0 < margin
    requires Turns(c, gap, margin, m)
    ensures Gap(c.alpha, gap, m) < margin
  {
    hide Gap, Growth;
    GapBound(c.alpha, gap, m);
    GrowthPositive(c.alpha, m);
    ProductBelow(Gap(c.alpha, gap, m), margin, Growth(c.alpha, m));
  }

  lemma GrowthPositive(alpha: real, n: nat)
    requires alpha >= 0.0
    ensures Growth(alpha, n) >= 1.0
  {
    ProductNonnegative(n as real, alpha);
  }

  lemma ProductBelow(g: real, margin: real, f: real)
    requires g * f < margin * f && f > 0.0
    ensures g < margin
  {}

  lemma StepsCover(n: nat, n': nat, step: nat)
    requires n <= n'
    ensures Climb(n, step) <= Climb(n', step)
  {}
}
