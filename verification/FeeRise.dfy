/** Which way the base fee moves and how far, and the climb under full blocks: the mirror of the descent. */
module FeeRise {
  import opened Common
  import opened FeeModel

  // ---------- one block, exactly ----------

  /** An eighth of the block's utilization and seven eighths of the old average. */
  function NewAverage(f: Fee, gasUsed: u64, gasLimit: u64): real
    requires gasLimit > 0
  {
    gasUsed as real / (8 * gasLimit) as real + 0.875 * f.ema
  }

  lemma AverageIs(f: Fee, gasUsed: u64, gasLimit: u64)
    requires gasLimit > 0
    ensures Adjust(f, gasUsed, gasLimit).ema == NewAverage(f, gasUsed, gasLimit)
  {
    Eighth(gasUsed as real, gasLimit as real);
    var l: int := gasLimit;
    assert (8 * l) as real == 8.0 * l as real;
  }

  lemma Eighth(x: real, l: real)
    requires l > 0.0
    ensures 0.125 * (x / l) == x / (8.0 * l)
  {
    var u, v := x / l, x / (8.0 * l);
    assert u * l == x && v * (8.0 * l) == x;
    Cancel(0.125 * u, v, 8.0 * l);
  }

  lemma Cancel(a: real, b: real, k: real)
    requires k > 0.0 && a * k == b * k
    ensures a == b
  {
    if a > b {
      ScalesUp(b, a, k);
    } else if a < b {
      ScalesUp(a, b, k);
    }
  }

  lemma ScalesUp(a: real, b: real, k: real)
    requires k > 0.0 && a < b
    ensures a * k < b * k
  {}

  /** Basis points above or below the target, at least one of them moves a fee in range. */
  lemma OnePointMoves(fee: nat, bps: nat)
    requires fee >= MIN_FEE && bps >= 1
    ensures fee * bps / 10000 >= 10000
  {
    ShareMonotone(fee, 1, bps);
  }

  lemma BpsExactly(e: real)
    ensures e >= 0.50005 <==> SignedBps(e) >= 1
    ensures e <= 0.49995 <==> SignedBps(e) <= -1
    ensures 0.5 < e < 0.5625 ==> SignedBps(e) == (20000.0 * (e - 0.5)).Floor
    ensures 0.4375 < e < 0.5 ==> SignedBps(e) == -(20000.0 * (0.5 - e)).Floor
    ensures e >= 0.5625 ==> SignedBps(e) == 1250
    ensures e <= 0.4375 ==> SignedBps(e) == -1250
  {}

  /**
    * The fee rises if and only if the new average is above the target by a basis point of it
    * or more and the fee is below its ceiling, and falls if and only if the average is below
    * by as much and the fee above its floor; without a limit to compare with nothing moves.
    */
  lemma FeeMovesExactly(f: Fee, gasUsed: u64, gasLimit: u64)
    requires InRange(f) && gasLimit > 0
    ensures var g, e := Adjust(f, gasUsed, gasLimit), NewAverage(f, gasUsed, gasLimit);
            && g.ema == e
            && (g.baseFee > f.baseFee <==> e >= 0.50005 && f.baseFee < 100_000_000_000)
            && (g.baseFee < f.baseFee <==> e <= 0.49995 && f.baseFee > 100_000_000)
    ensures Adjust(f, gasUsed, 0) == f
  {
    hide SignedBps;
    var e := NewAverage(f, gasUsed, gasLimit);
    AverageIs(f, gasUsed, gasLimit);
    BpsExactly(e);
    if SignedBps(e) >= 1 {
      OnePointMoves(f.baseFee, SignedBps(e));
    } else if SignedBps(e) <= -1 {
      OnePointMoves(f.baseFee, -SignedBps(e));
    }
  }

  /**
    * How far it moves: by an eighth, rounded down, once the average is an eighth of the target
    * away from it or more; in between by as many basis points as the average is away; and never
    * past its bounds.
    */
  lemma FeeMovesBy(f: Fee, gasUsed: u64, gasLimit: u64)
    requires InRange(f) && gasLimit > 0
    ensures var g, e := Adjust(f, gasUsed, gasLimit).baseFee, NewAverage(f, gasUsed, gasLimit);
            && (e >= 0.5625 ==> g == Min(f.baseFee + f.baseFee / 8, 100_000_000_000))
            && (0.5 < e < 0.5625 ==>
                  g == Min(f.baseFee + f.baseFee * (20000.0 * (e - 0.5)).Floor / 10000, 100_000_000_000))
            && (e == 0.5 ==> g == f.baseFee)
            && (0.4375 < e < 0.5 ==>
                  g == Max(f.baseFee - f.baseFee * (20000.0 * (0.5 - e)).Floor / 10000, 100_000_000))
            && (e <= 0.4375 ==> g == Max(f.baseFee - f.baseFee / 8, 100_000_000))
  {
    var e := NewAverage(f, gasUsed, gasLimit);
    AverageIs(f, gasUsed, gasLimit);
    BpsExactly(e);
    hide SignedBps, Clamp;
    BpsBounds(e);
    MovedWithin(f.baseFee, SignedBps(e));
    EighthOf(f.baseFee);
  }

  lemma EighthOf(fee: nat)
    ensures fee * 1250 / 10000 == fee / 8
  {}

  /** A fee model just started moves to 1.125 gwei on a full block and to 0.875 gwei on an empty one. */
  lemma FirstBlock(gasLimit: u64)
    requires gasLimit > 0
    ensures Adjust(START, gasLimit, gasLimit) == Fee(1_125_000_000, 0.5625)
    ensures Adjust(START, 0, gasLimit) == Fee(875_000_000, 0.4375)
  {
    FullIs(START, gasLimit);
    IdleIs(START, gasLimit);
  }

  // ---------- full blocks ----------

  function Full(f: Fee): Fee {
    Adjust(f, 1, 1)
  }

  lemma FullIs(f: Fee, gasLimit: u64)
    requires gasLimit > 0
    ensures Adjust(f, gasLimit, gasLimit) == Full(f) ==
            Fee(Bounded(Moved(f.baseFee, SignedBps(0.125 + 0.875 * f.ema))), 0.125 + 0.875 * f.ema)
  {
    assert gasLimit as real / gasLimit as real == 1.0;
  }

  lemma FullMonotone(f: Fee, g: Fee)
    requires AtMost(f, g)
    ensures AtMost(Full(f), Full(g))
  {
    var a, b := 0.125 + 0.875 * f.ema, 0.125 + 0.875 * g.ema;
    FullIs(f, 1);
    FullIs(g, 1);
    BpsMonotone(a, b);
    BpsBounds(a);
    BpsBounds(b);
    MovedMonotone(f.baseFee, g.baseFee, SignedBps(a), SignedBps(b));
  }

  function FullFor(f: Fee, n: nat): Fee {
    if n == 0 then f else Full(FullFor(f, n - 1))
  }

  lemma {:induction false} FullForMonotone(f: Fee, g: Fee, n: nat)
    requires AtMost(f, g)
    ensures AtMost(FullFor(f, n), FullFor(g, n))
  {
    if n > 0 {
      FullForMonotone(f, g, n - 1);
      FullMonotone(FullFor(f, n - 1), FullFor(g, n - 1));
    }
  }

  lemma {:induction false} FullForSplit(f: Fee, m: nat, n: nat)
    ensures FullFor(f, m + n) == FullFor(FullFor(f, m), n)
  {
    if n > 0 {
      FullForSplit(f, m, n - 1);
    }
  }

  /** Full blocks count the same whatever their limit. */
  lemma {:induction false} FullRunIs(f: Fee, blocks: seq<Usage>)
    requires forall b :: b in blocks ==> b.gasUsed == b.gasLimit > 0
    ensures Run(f, blocks) == FullFor(f, |blocks|)
  {
    if blocks != [] {
      var b := blocks[|blocks| - 1];
      FullRunIs(f, blocks[..|blocks| - 1]);
      assert b in blocks;
      FullIs(FullFor(f, |blocks| - 1), b.gasLimit);
    }
  }

  // ---------- the slowest climb ----------

  // As in FeeModel, constants reach the lemmas below as pinned parameters, so that the
  // solver does not unroll FullFor and RiseFor.

  const LOWEST: Fee := Fee(MIN_FEE, 0.0)

  function Rise(fee: nat): nat {
    fee + fee * 1250 / 10000
  }

  function RiseFor(fee: nat, n: nat): nat {
    if n == 0 then fee else Rise(RiseFor(fee, n - 1))
  }

  lemma {:induction false} RiseForGrows(fee: nat, m: nat, n: nat)
    requires m <= n
    ensures RiseFor(fee, n) >= RiseFor(fee, m) >= fee
  {
    if m < n {
      RiseForGrows(fee, m, n - 1);
      assert RiseFor(fee, n - 1) * 1250 / 10000 >= 0;
    } else if m > 0 {
      RiseForGrows(fee, m - 1, m - 1);
      assert RiseFor(fee, m - 1) * 1250 / 10000 >= 0;
    }
  }

  /** Five blocks at the floor while the average comes up, then one partial rise. */
  lemma LowestHead(lowest: Fee, n: nat)
    requires lowest == LOWEST && n == 6
    ensures FullFor(lowest, n).baseFee == 110_240_000 && 0.55 <= FullFor(lowest, n).ema <= 1.0
  {
    FullIs(lowest, 1);
    FullIs(Fee(MIN_FEE, 0.125), 1);
    FullIs(Fee(MIN_FEE, 0.234375), 1);
    FullIs(Fee(MIN_FEE, 0.330078125), 1);
    FullIs(Fee(MIN_FEE, 0.413818359375), 1);
    FullIs(Fee(MIN_FEE, 0.487091064453125), 1);
    assert FullFor(lowest, n - 6) == lowest;
    assert FullFor(lowest, n - 5) == Fee(MIN_FEE, 0.125);
    assert FullFor(lowest, n - 4) == Fee(MIN_FEE, 0.234375);
    assert FullFor(lowest, n - 3) == Fee(MIN_FEE, 0.330078125);
    assert FullFor(lowest, n - 2) == Fee(MIN_FEE, 0.413818359375);
    assert FullFor(lowest, n - 1) == Fee(MIN_FEE, 0.487091064453125);
    assert SignedBps(0.551204681396484375) == 1024;
  }

  /** Once the average is high every full block adds a full eighth, until the ceiling. */
  lemma {:induction false} HighTail(f: Fee, n: nat)
    requires 0.5 <= f.ema <= 1.0 && MIN_FEE <= f.baseFee <= MAX_FEE
    requires n > 0 ==> RiseFor(f.baseFee, n - 1) <= MAX_FEE
    ensures 0.5 <= FullFor(f, n).ema <= 1.0
    ensures FullFor(f, n).baseFee == Bounded(RiseFor(f.baseFee, n))
  {
    if n > 0 {
      if n > 1 {
        RiseForGrows(f.baseFee, n - 2, n - 1);
      }
      RiseForGrows(f.baseFee, 0, n - 1);
      hide Full, Rise;
      HighTail(f, n - 1);
      HighRise(FullFor(f, n - 1));
    }
  }

  lemma HighRise(g: Fee)
    requires 0.5 <= g.ema <= 1.0
    ensures Full(g).baseFee == Bounded(Rise(g.baseFee)) && 0.5 <= Full(g).ema <= 1.0
  {
    FullIs(g, 1);
    BpsExactly(0.125 + 0.875 * g.ema);
  }

  function NineEighths(n: nat): real {
    if n == 0 then 1.0 else 1.125 * NineEighths(n - 1)
  }

  /** Rounding never costs more than if the fee had started 8 lower. */
  lemma {:induction false} RiseBetween(fee: nat, n: nat)
    requires fee >= 8
    ensures NineEighths(n) * (fee as real - 8.0) + 8.0 <= RiseFor(fee, n) as real <= NineEighths(n) * fee as real
  {
    if n > 0 {
      RiseBetween(fee, n - 1);
      NineMore(NineEighths(n - 1), fee as real - 8.0);
      NineMore(NineEighths(n - 1), fee as real);
      RiseRounds(RiseFor(fee, n - 1));
    }
  }

  lemma NineMore(x: real, fee: real)
    ensures (1.125 * x) * fee == 1.125 * (x * fee)
  {}

  lemma RiseRounds(fee: nat)
    ensures 1.125 * fee as real - 1.0 <= Rise(fee) as real <= 1.125 * fee as real
  {
    var q, r := fee * 1250 / 10000, fee * 1250 % 10000;
    assert fee * 1250 == 10000 * q + r;
    assert fee as real * 1250.0 == 10000.0 * q as real + r as real;
  }

  lemma NineTwoMore(n: nat)
    ensures NineEighths(n + 2) == 1.265625 * NineEighths(n)
  {}

  lemma NineTenMore(n: nat, low: real, high: real)
    requires 0.0 <= low <= NineEighths(n) <= high
    ensures 3.2473 * low <= NineEighths(n + 10) <= 3.24733 * high
  {
    var x := NineEighths(n);
    NineTwoMore(n);
    NineTwoMore(n + 2);
    NineTwoMore(n + 4);
    NineTwoMore(n + 6);
    NineTwoMore(n + 8);
    assert NineEighths(n + 10) == 1.265625 * (1.265625 * (1.265625 * (1.265625 * (1.265625 * x))));
  }

  lemma FiftySevenAndOne(n: nat)
    requires n == 57
    ensures NineEighths(n) <= 824.0 && NineEighths(n + 1) >= 926.0
  {
    NineTenMore(0, 1.0, 1.0);
    NineTenMore(10, 3.2473, 3.24733);
    NineTenMore(20, 10.5449, 10.54516);
    NineTenMore(30, 34.2424, 34.24362);
    NineTenMore(40, 111.195, 111.20034);
    assert 361.08 <= NineEighths(n - 7) <= 361.105;
    NineTwoMore(n - 7);
    NineTwoMore(n - 5);
    NineTwoMore(n - 3);
    NineTwoMore(n - 1);
    assert NineEighths(n) == 1.125 * NineEighths(n - 1);
  }

  /** The last rise that stays below the ceiling is the fifty-seventh. */
  lemma FiftySevenRises(fee: nat, n: nat)
    requires fee == 110_240_000 && n == 57
    ensures RiseFor(fee, n) < MAX_FEE <= RiseFor(fee, n + 1)
  {
    FiftySevenAndOne(n);
    RiseBetween(fee, n);
    RiseBetween(fee, n + 1);
    var x, y := NineEighths(n), NineEighths(n + 1);
    assert x * fee as real == x * 110_240_000.0 && y * (fee as real - 8.0) == y * 110_239_992.0;
  }

  /** From the lowest fee and an empty average the climb takes 64 full blocks, not 63. */
  lemma WorstClimb(lowest: Fee, n: nat)
    requires lowest == LOWEST && n == 63
    ensures FullFor(lowest, n).baseFee < MAX_FEE
    ensures FullFor(lowest, n + 1).baseFee == MAX_FEE && 0.5 <= FullFor(lowest, n + 1).ema <= 1.0
  {
    hide Full, RiseFor;
    var six, rest := n - 57, n - 6;
    LowestHead(lowest, six);
    var f := FullFor(lowest, six);
    FiftySevenRises(f.baseFee, rest);
    RiseForGrows(f.baseFee, rest - 1, rest);
    RiseForGrows(f.baseFee, 0, rest);
    HighTail(f, rest);
    HighTail(f, rest + 1);
    FullForSplit(lowest, six, rest);
    FullForSplit(lowest, six, rest + 1);
  }

  lemma {:induction false} CeilingStays(f: Fee, n: nat)
    requires f.baseFee == MAX_FEE && 0.5 <= f.ema <= 1.0
    ensures FullFor(f, n).baseFee == MAX_FEE && 0.5 <= FullFor(f, n).ema <= 1.0
  {
    if n > 0 {
      CeilingStays(f, n - 1);
      var g := FullFor(f, n - 1);
      FullIs(g, 1);
      BpsExactly(0.125 + 0.875 * g.ema);
      MovedWithin(g.baseFee, SignedBps(0.125 + 0.875 * g.ema));
    }
  }

  lemma LowestCeiling(lowest: Fee, n: nat)
    requires lowest == LOWEST && n >= 64
    ensures FullFor(lowest, n).baseFee == MAX_FEE
  {
    hide Full, Bounded;
    var m := 63;
    WorstClimb(lowest, m);
    FullForSplit(lowest, m + 1, n - m - 1);
    CeilingStays(FullFor(lowest, m + 1), n - m - 1);
  }

  lemma FullForAtMost(f: Fee, n: nat)
    requires f.baseFee <= MAX_FEE
    ensures FullFor(f, n).baseFee <= MAX_FEE
  {
    if n > 0 {
      FullIs(FullFor(f, n - 1), 1);
    }
  }

  /**
    * From every state in range, 64 or more full blocks in a row bring the fee to its ceiling,
    * where it stays while blocks stay full.  By WorstClimb 63 are not always enough.
    */
  lemma CeilingWithin64(f: Fee, blocks: seq<Usage>)
    requires InRange(f) && |blocks| >= 64
    requires forall b :: b in blocks ==> b.gasUsed == b.gasLimit > 0
    ensures Run(f, blocks).baseFee == MAX_FEE
  {
    FullRunIs(f, blocks);
    FullForMonotone(LOWEST, f, |blocks|);
    FullForAtMost(f, |blocks|);
    LowestCeiling(LOWEST, |blocks|);
  }
}
