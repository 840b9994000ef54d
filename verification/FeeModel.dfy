/** The base fee controller: an exponential moving average and a clamped integer adjustment. */
module FeeModel {
  import opened Common

  const MIN_FEE: nat := 100_000_000
  const MAX_FEE: nat := 100_000_000_000

  /** float64 is modelled by exact reals. */
  datatype Fee = Fee(baseFee: nat, ema: real)

  const START: Fee := Fee(1_000_000_000, 0.5)

  function Clamp(delta: real): real {
    if delta > 0.125 then 0.125 else if delta < -0.125 then -0.125 else delta
  }

  /** The adjustment in basis points of the fee: positive above the target, negative below it. */
  function SignedBps(ema: real): int {
    var delta := Clamp((ema - 0.5) / 0.5);
    if delta > 0.0 then (delta * 10000.0).Floor
    else if delta < 0.0 then -(-delta * 10000.0).Floor
    else 0
  }

  function Moved(fee: nat, bps: int): int {
    if bps >= 0 then fee + fee * bps / 10000 else fee - fee * (-bps) / 10000
  }

  function Bounded(fee: int): (r: nat)
    ensures MIN_FEE <= r <= MAX_FEE
  {
    if fee < MIN_FEE then MIN_FEE else if fee > MAX_FEE then MAX_FEE else fee
  }

  function Adjust(f: Fee, gasUsed: u64, gasLimit: u64): Fee {
    if gasLimit == 0 then f
    else
      var utilization := gasUsed as real / gasLimit as real;
      var ema := 0.125 * utilization + (1.0 - 0.125) * f.ema;
      Fee(Bounded(Moved(f.baseFee, SignedBps(ema))), ema)
  }

  predicate InRange(f: Fee) {
    MIN_FEE <= f.baseFee <= MAX_FEE && 0.0 <= f.ema <= 1.0
  }

  // ---------- one block ----------

  lemma UtilizationBounds(gasUsed: u64, gasLimit: u64)
    requires gasLimit > 0
    ensures 0.0 <= gasUsed as real / gasLimit as real
    ensures gasUsed as real / gasLimit as real <= 1.0 <==> gasUsed <= gasLimit
  {
    var u := gasUsed as real / gasLimit as real;
    assert u * gasLimit as real == gasUsed as real;
    if u > 1.0 {
      assert u * gasLimit as real > gasLimit as real;
    }
  }

  lemma BpsBounds(ema: real)
    ensures -1250 <= SignedBps(ema) <= 1250
    ensures ema <= 0.5 ==> SignedBps(ema) <= 0
    ensures ema <= 0.4375 ==> SignedBps(ema) == -1250
  {}

  lemma MovedWithin(fee: nat, bps: int)
    requires -1250 <= bps <= 1250
    ensures fee - fee * 1250 / 10000 <= Moved(fee, bps) <= fee + fee * 1250 / 10000
    ensures bps <= 0 ==> Moved(fee, bps) <= fee
    ensures bps >= 0 ==> Moved(fee, bps) >= fee
  {
    var a: nat := if bps >= 0 then bps else -bps;
    ShareMonotone(fee, a, 1250);
  }

  lemma ShareMonotone(fee: nat, a: nat, b: nat)
    requires a <= b
    ensures 0 <= fee * a / 10000 <= fee * b / 10000
  {
    var x, y := fee * a, fee * b;
    assert 0 <= x <= y;
  }

  /**
    * A block that used no more than its limit keeps the average in [0, 1] and the fee
    * within its bounds, and moves the fee by at most an eighth, rounded down.
    */
  lemma StepBounds(f: Fee, gasUsed: u64, gasLimit: u64)
    requires InRange(f) && gasUsed <= gasLimit
    ensures var g := Adjust(f, gasUsed, gasLimit);
            InRange(g) && f.baseFee - f.baseFee * 1250 / 10000 <= g.baseFee <= f.baseFee + f.baseFee * 1250 / 10000
  {
    if gasLimit > 0 {
      UtilizationBounds(gasUsed, gasLimit);
      var ema := Adjust(f, gasUsed, gasLimit).ema;
      BpsBounds(ema);
      MovedWithin(f.baseFee, SignedBps(ema));
    }
  }

  /** The fee itself stays within its bounds even after a block over its limit; the average leaves [0, 1] for some such block. */
  lemma AverageNeedsTheLimit(f: Fee, gasUsed: u64, gasLimit: u64)
    requires InRange(f) && gasLimit > 0
    ensures MIN_FEE <= Adjust(f, gasUsed, gasLimit).baseFee <= MAX_FEE
    ensures Adjust(Fee(f.baseFee, 1.0), gasUsed, gasLimit).ema <= 1.0 <==> gasUsed <= gasLimit
  {
    UtilizationBounds(gasUsed, gasLimit);
  }

  // ---------- runs ----------

  datatype Usage = Usage(gasUsed: u64, gasLimit: u64)

  function Run(f: Fee, blocks: seq<Usage>): Fee {
    if blocks == [] then f
    else
      var b := blocks[|blocks| - 1];
      Adjust(Run(f, blocks[..|blocks| - 1]), b.gasUsed, b.gasLimit)
  }

  lemma {:induction false} RunInRange(f: Fee, blocks: seq<Usage>)
    requires InRange(f) && forall b :: b in blocks ==> b.gasUsed <= b.gasLimit
    ensures InRange(Run(f, blocks))
  {
    if blocks != [] {
      var b := blocks[|blocks| - 1];
      RunInRange(f, blocks[..|blocks| - 1]);
      StepBounds(Run(f, blocks[..|blocks| - 1]), b.gasUsed, b.gasLimit);
    }
  }

  // ---------- idle chains ----------

  predicate AtMost(f: Fee, g: Fee) {
    f.baseFee <= g.baseFee && f.ema <= g.ema
  }

  lemma BpsMonotone(a: real, b: real)
    requires a <= b
    ensures SignedBps(a) <= SignedBps(b)
  {}

  lemma MovedMonotone(f: nat, g: nat, p: int, q: int)
    requires f <= g && -10000 <= p <= q <= 10000
    ensures Moved(f, p) <= Moved(g, q)
  {
    if p >= 0 {
      RiseMonotone(f, g, p, q);
    } else if q >= 0 {
      ShareMonotone(f, 0, -p);
      ShareMonotone(g, 0, q);
    } else {
      FallMonotone(f, g, -p, -q);
    }
  }

  lemma RiseMonotone(f: nat, g: nat, p: nat, q: nat)
    requires f <= g && p <= q
    ensures f * p / 10000 <= g * q / 10000
  {
    ShareMonotone(g, p, q);
    ShareMonotone(p, f, g);
  }

  lemma FallMonotone(f: nat, g: nat, a: nat, b: nat)
    requires f <= g && b <= a && b <= 10000
    ensures f - f * a / 10000 <= g - g * b / 10000
  {
    ShareMonotone(f, b, a);
    var x, y, d := f * b, g * b, g - f;
    assert y == x + d * b && d * b <= d * 10000;
    assert y <= x + 10000 * d;
  }

  function Idle(f: Fee): Fee {
    Adjust(f, 0, 1)
  }

  lemma IdleIs(f: Fee, gasLimit: u64)
    requires gasLimit > 0
    ensures Adjust(f, 0, gasLimit) == Idle(f) == Fee(Bounded(Moved(f.baseFee, SignedBps(0.875 * f.ema))), 0.875 * f.ema)
  {
    assert 0 as real / gasLimit as real == 0.0;
  }

  /** A lower state stays lower. */
  lemma IdleMonotone(f: Fee, g: Fee)
    requires AtMost(f, g) && 0.0 <= f.ema
    ensures AtMost(Idle(f), Idle(g)) && 0.0 <= Idle(f).ema
  {
    IdleIs(f, 1);
    IdleIs(g, 1);
    BpsMonotone(0.875 * f.ema, 0.875 * g.ema);
    BpsBounds(0.875 * f.ema);
    BpsBounds(0.875 * g.ema);
    MovedMonotone(f.baseFee, g.baseFee, SignedBps(0.875 * f.ema), SignedBps(0.875 * g.ema));
  }

  function IdleFor(f: Fee, n: nat): Fee {
    if n == 0 then f else Idle(IdleFor(f, n - 1))
  }

  lemma {:induction false} IdleForMonotone(f: Fee, g: Fee, n: nat)
    requires AtMost(f, g) && 0.0 <= f.ema
    ensures AtMost(IdleFor(f, n), IdleFor(g, n)) && 0.0 <= IdleFor(f, n).ema
  {
    if n > 0 {
      IdleForMonotone(f, g, n - 1);
      IdleMonotone(IdleFor(f, n - 1), IdleFor(g, n - 1));
    }
  }

  /** Empty blocks count the same whatever their limit. */
  lemma {:induction false} EmptyRunIsIdle(f: Fee, blocks: seq<Usage>)
    requires forall b :: b in blocks ==> b.gasUsed == 0 && b.gasLimit > 0
    ensures Run(f, blocks) == IdleFor(f, |blocks|)
  {
    if blocks != [] {
      var b := blocks[|blocks| - 1];
      EmptyRunIsIdle(f, blocks[..|blocks| - 1]);
      assert b in blocks;
      IdleIs(IdleFor(f, |blocks| - 1), b.gasLimit);
    }
  }

  // ---------- the slowest descent ----------

  // Below, constants such as WORST, 6 or 50 reach the lemmas as parameters pinned by a
  // requires clause: given as literals, they would make the solver unroll IdleFor and
  // DropFor that many times.

  const WORST: Fee := Fee(MAX_FEE, 1.0)

  function Drop(fee: nat): nat {
    fee - fee * 1250 / 10000
  }

  function DropFor(fee: nat, n: nat): nat {
    if n == 0 then fee else Drop(DropFor(fee, n - 1))
  }

  lemma {:induction false} DropForSplit(fee: nat, m: nat, n: nat)
    ensures DropFor(fee, m + n) == DropFor(DropFor(fee, m), n)
  {
    if n > 0 {
      DropForSplit(fee, m, n - 1);
    }
  }

  lemma {:induction false} DropForFalls(fee: nat, m: nat, n: nat)
    requires m <= n
    ensures DropFor(fee, n) <= DropFor(fee, m) <= fee
  {
    if m < n {
      DropForFalls(fee, m, n - 1);
      assert DropFor(fee, n - 1) * 1250 / 10000 >= 0;
    } else if m > 0 {
      DropForFalls(fee, m - 1, m - 1);
      assert DropFor(fee, m - 1) * 1250 / 10000 >= 0;
    }
  }

  /** Five blocks at the ceiling while the average comes down, then one partial drop. */
  lemma WorstHead(worst: Fee, n: nat)
    requires worst == WORST && n == 6
    ensures IdleFor(worst, n).baseFee == 89_760_000_000 && 0.0 <= IdleFor(worst, n).ema <= 0.449
  {
    IdleIs(worst, 1);
    IdleIs(Fee(MAX_FEE, 0.875), 1);
    IdleIs(Fee(MAX_FEE, 0.765625), 1);
    IdleIs(Fee(MAX_FEE, 0.669921875), 1);
    IdleIs(Fee(MAX_FEE, 0.586181640625), 1);
    IdleIs(Fee(MAX_FEE, 0.512908935546875), 1);
    assert IdleFor(worst, n - 6) == worst;
    assert IdleFor(worst, n - 5) == Fee(MAX_FEE, 0.875);
    assert IdleFor(worst, n - 4) == Fee(MAX_FEE, 0.765625);
    assert IdleFor(worst, n - 3) == Fee(MAX_FEE, 0.669921875);
    assert IdleFor(worst, n - 2) == Fee(MAX_FEE, 0.586181640625);
    assert IdleFor(worst, n - 1) == Fee(MAX_FEE, 0.512908935546875);
    assert SignedBps(0.448795318603515625) == -1024;
  }

  /** Once the average is low every empty block takes a full eighth, until the floor. */
  lemma {:induction false} LowTail(f: Fee, n: nat)
    requires 0.0 <= f.ema <= 0.5 && MIN_FEE <= f.baseFee <= MAX_FEE
    requires n > 0 ==> DropFor(f.baseFee, n - 1) >= MIN_FEE
    ensures IdleFor(f, n).ema <= 0.5 && 0.0 <= IdleFor(f, n).ema
    ensures IdleFor(f, n).baseFee == Bounded(DropFor(f.baseFee, n))
  {
    if n > 0 {
      if n > 1 {
        DropForFalls(f.baseFee, n - 2, n - 1);
      }
      DropForFalls(f.baseFee, 0, n - 1);
      LowTail(f, n - 1);
      var g := IdleFor(f, n - 1);
      IdleIs(g, 1);
      BpsBounds(0.875 * g.ema);
    }
  }

  function SevenEighths(n: nat): real {
    if n == 0 then 1.0 else 0.875 * SevenEighths(n - 1)
  }

  lemma SevenMore(x: real, fee: real)
    ensures (0.875 * x) * fee == 0.875 * (x * fee)
  {}

  /** Rounding never costs more than 8 in all. */
  lemma {:induction false} DropBetween(fee: nat, n: nat)
    ensures var exact := SevenEighths(n) * fee as real;
            exact <= DropFor(fee, n) as real <= exact + 8.0
  {
    if n > 0 {
      DropBetween(fee, n - 1);
      SevenMore(SevenEighths(n - 1), fee as real);
      DropRounds(DropFor(fee, n - 1));
    }
  }

  lemma DropRounds(fee: nat)
    ensures 0.875 * fee as real <= Drop(fee) as real <= 0.875 * fee as real + 1.0
  {
    var q, r := fee * 1250 / 10000, fee * 1250 % 10000;
    assert fee * 1250 == 10000 * q + r;
    assert fee as real * 1250.0 == 10000.0 * q as real + r as real;
  }

  lemma TenMore(n: nat, low: real, high: real)
    requires 0.0 <= low <= SevenEighths(n) <= high
    ensures 0.26307 * low <= SevenEighths(n + 10) <= 0.26308 * high
  {
    var x := SevenEighths(n);
    TwoMore(n);
    TwoMore(n + 2);
    TwoMore(n + 4);
    TwoMore(n + 6);
    TwoMore(n + 8);
    assert SevenEighths(n + 10) == 0.765625 * (0.765625 * (0.765625 * (0.765625 * (0.765625 * x))));
  }

  lemma TwoMore(n: nat)
    ensures SevenEighths(n + 2) == 0.765625 * SevenEighths(n)
  {}

  lemma FiftyAndOne(n: nat)
    requires n == 50
    ensures 0.00125 <= SevenEighths(n) && SevenEighths(n + 1) <= 0.0011035
  {
    TenMore(0, 1.0, 1.0);
    TenMore(10, 0.26307, 0.26308);
    TenMore(20, 0.0692, 0.0692111);
    TenMore(30, 0.0182, 0.01820805);
    TenMore(40, 0.00478, 0.00479018);
    assert SevenEighths(n + 1) == 0.875 * SevenEighths(n);
  }

  lemma {:induction false} IdleForSplit(f: Fee, m: nat, n: nat)
    ensures IdleFor(f, m + n) == IdleFor(IdleFor(f, m), n)
  {
    if n > 0 {
      IdleForSplit(f, m, n - 1);
    }
  }

  /** The last drop that stays above the floor is the fiftieth. */
  lemma FiftyDrops(fee: nat, n: nat)
    requires fee == 89_760_000_000 && n == 50
    ensures DropFor(fee, n) > MIN_FEE >= DropFor(fee, n + 1)
  {
    FiftyAndOne(n);
    DropBetween(fee, n);
    DropBetween(fee, n + 1);
    var x, y := SevenEighths(n), SevenEighths(n + 1);
    assert x * fee as real == x * 89_760_000_000.0 && y * fee as real == y * 89_760_000_000.0;
  }

  lemma DescentAfterHead(f: Fee, n: nat)
    requires f.baseFee == 89_760_000_000 && 0.0 <= f.ema <= 0.449 && n == 50
    ensures IdleFor(f, n).baseFee > MIN_FEE
    ensures IdleFor(f, n + 1).baseFee == MIN_FEE && 0.0 <= IdleFor(f, n + 1).ema <= 0.5
  {
    hide Idle, DropFor, IdleFor;
    FiftyDrops(f.baseFee, n);
    DropForFalls(f.baseFee, n - 1, n);
    LowTail(f, n);
    LowTail(f, n + 1);
  }

  /** From the highest fee and a full average the descent takes 57 empty blocks, not 56. */
  lemma WorstDescent(worst: Fee, n: nat)
    requires worst == WORST && n == 56
    ensures IdleFor(worst, n).baseFee > MIN_FEE
    ensures IdleFor(worst, n + 1).baseFee == MIN_FEE && 0.0 <= IdleFor(worst, n + 1).ema <= 0.5
  {
    hide Idle;
    var six, fifty := n - 50, n - 6;
    WorstHead(worst, six);
    DescentAfterHead(IdleFor(worst, six), fifty);
    IdleForSplit(worst, six, fifty);
    IdleForSplit(worst, six, fifty + 1);
  }

  lemma {:induction false} FloorStays(f: Fee, n: nat)
    requires f.baseFee == MIN_FEE && 0.0 <= f.ema <= 0.5
    ensures IdleFor(f, n).baseFee == MIN_FEE && 0.0 <= IdleFor(f, n).ema <= 0.5
  {
    if n > 0 {
      FloorStays(f, n - 1);
      var g := IdleFor(f, n - 1);
      IdleIs(g, 1);
      BpsBounds(0.875 * g.ema);
      MovedWithin(g.baseFee, SignedBps(0.875 * g.ema));
    }
  }

  /**
    * From every state in range, 57 or more empty blocks in a row bring the fee to its
    * floor, where it stays while blocks stay empty.  By WorstDescent 56 are not always enough.
    */
  lemma FloorWithin57(f: Fee, blocks: seq<Usage>)
    requires InRange(f) && |blocks| >= 57
    requires forall b :: b in blocks ==> b.gasUsed == 0 && b.gasLimit > 0
    ensures Run(f, blocks).baseFee == MIN_FEE
  {
    EmptyRunIsIdle(f, blocks);
    IdleForMonotone(f, WORST, |blocks|);
    IdleForAtLeast(f, |blocks|);
    WorstFloor(WORST, |blocks|);
  }

  lemma WorstFloor(worst: Fee, n: nat)
    requires worst == WORST && n >= 57
    ensures IdleFor(worst, n).baseFee == MIN_FEE
  {
    hide Idle, Bounded;
    var m := 56;
    WorstDescent(worst, m);
    IdleForSplit(worst, m + 1, n - m - 1);
    FloorStays(IdleFor(worst, m + 1), n - m - 1);
  }

  lemma IdleForAtLeast(f: Fee, n: nat)
    requires f.baseFee >= MIN_FEE
    ensures IdleFor(f, n).baseFee >= MIN_FEE
  {
    if n > 0 {
      IdleIs(IdleFor(f, n - 1), 1);
    }
  }

  // ---------- discounts ----------

  type u16 = x: nat | x < 0x1_0000

  function Scaled(base: nat, multiplier: nat): nat {
    base * multiplier / 10000
  }

  /** What a sender pays: `10000 - discountBps` is taken in 64 bits. */
  function Discounted(base: nat, discountBps: u16): nat {
    if discountBps == 0 then base
    else
      var effective := Scaled(base, Wrap64(10000 - discountBps));
      if effective < MIN_FEE then MIN_FEE else effective
  }

  /** The multiplier, with its wrap-around spelled out. */
  lemma MultiplierIs(discountBps: u16)
    ensures Wrap64(10000 - discountBps) ==
            if discountBps <= 10000 then 10000 - discountBps else U64 + 10000 - discountBps
  {
    if discountBps > 10000 {
      var x: int := 10000 - discountBps;
      assert x % 0x1_0000_0000_0000_0000 == x + 0x1_0000_0000_0000_0000;
    }
  }

  /**
    * A sender never pays more than the base fee, nor less than the floor, exactly when the
    * discount is at most 100%; a larger one wraps into a surcharge.
    */
  lemma DiscountNeverSurcharges(base: nat, discountBps: u16)
    requires MIN_FEE <= base <= MAX_FEE
    ensures MIN_FEE <= Discounted(base, discountBps) <= base <==> discountBps <= 10000
  {
    MultiplierIs(discountBps);
    if discountBps <= 10000 {
      ShareMonotone(base, 10000 - discountBps, 10000);
    } else {
      ShareMonotone(base, 20000, Wrap64(10000 - discountBps));
    }
  }

  /** More discount never means a higher fee, as long as both stay within 100%. */
  lemma DiscountMonotone(base: nat, d: u16, e: u16)
    requires MIN_FEE <= base && d <= e <= 10000
    ensures Discounted(base, e) <= Discounted(base, d)
  {
    MultiplierIs(d);
    MultiplierIs(e);
    ShareMonotone(base, 10000 - e, 10000 - d);
    ShareMonotone(base, 10000 - e, 10000);
  }

  /** Within 100% the fee is the discounted share of the base fee, rounded down, or the floor if that is more. */
  lemma DiscountExactly(base: nat, d: u16)
    requires MIN_FEE <= base && d <= 10000
    ensures var fee, share := Discounted(base, d), base * (10000 - d);
            && (share >= 10000 * MIN_FEE ==> 10000 * fee <= share < 10000 * (fee + 1))
            && (share < 10000 * MIN_FEE ==> fee == MIN_FEE)
  {
    MultiplierIs(d);
    var share := base * (10000 - d);
    assert share == 10000 * (share / 10000) + share % 10000;
  }

  /** A provider's answer for an address, or `None` for an error. */
  type Provider = Address -> Option<u16>

  datatype DiscountEntry = DiscountEntry(discountBps: u16, cachedAt: nat)

  const DISCOUNT_TTL: nat := 60_000_000_000

  /** A cached discount counts while it is younger than the time to live. */
  predicate Cached(cache: map<Address, DiscountEntry>, a: Address, now: nat) {
    a in cache && now - cache[a].cachedAt < DISCOUNT_TTL
  }

  function DiscountFor(cache: map<Address, DiscountEntry>, a: Address, provider: Provider, now: nat): u16 {
    if Cached(cache, a, now) then cache[a].discountBps
    else if provider(a).Some? then provider(a).value
    else 0
  }

  /** An answer given once stands for 60 seconds, whatever the provider says meanwhile; after that the provider is asked again. */
  lemma CacheAnswers(
    cache: map<Address, DiscountEntry>, a: Address, x: u16, at: nat, provider: Provider, now: nat)
    requires at <= now
    ensures DiscountFor(cache[a := DiscountEntry(x, at)], a, provider, now) ==
            if now < at + 60_000_000_000 then x else if provider(a).Some? then provider(a).value else 0
    ensures forall b :: b != a ==>
              DiscountFor(cache[a := DiscountEntry(x, at)], b, provider, now) == DiscountFor(cache, b, provider, now)
  {}

  class DynamicFeeModel {
    var baseFee: nat
    var emaGasUsage: real
    var discountCache: map<Address, DiscountEntry>

    ghost function View(): Fee
      reads this
    {
      Fee(baseFee, emaGasUsage)
    }

    constructor ()
      ensures View() == START && discountCache == map[]
    {
      baseFee, emaGasUsage, discountCache := 1_000_000_000, 0.5, map[];
    }

    method AdjustAfterBlock(gasUsed: u64, gasLimit: u64)
      modifies this`baseFee, this`emaGasUsage
      ensures View() == Adjust(old(View()), gasUsed, gasLimit)
    {
      if gasLimit == 0 {
        return;
      }
      var utilization := gasUsed as real / gasLimit as real;
      emaGasUsage := 0.125 * utilization + (1.0 - 0.125) * emaGasUsage;
      var delta := (emaGasUsage - 0.5) / 0.5;
      if delta > 0.125 {
        delta := 0.125;
      } else if delta < -0.125 {
        delta := -0.125;
      }
      var fee: int := baseFee;
      if delta > 0.0 {
        var pct := (delta * 10000.0).Floor;
        fee := fee + fee * pct / 10000;
      } else if delta < 0.0 {
        var pct := (-delta * 10000.0).Floor;
        fee := fee - fee * pct / 10000;
      }
      if fee < MIN_FEE {
        fee := MIN_FEE;
      }
      if fee > MAX_FEE {
        fee := MAX_FEE;
      }
      baseFee := fee;
    }

    /** Looks the discount up in the cache, or asks the provider and remembers its answer; an error is no discount. */
    method GetCachedDiscount(a: Address, provider: Provider, now: nat) returns (discountBps: u16)
      modifies this`discountCache
      ensures discountBps == DiscountFor(old(discountCache), a, provider, now)
      ensures Cached(discountCache, a, now) || provider(a).None?
      ensures Cached(discountCache, a, now) ==> discountBps == discountCache[a].discountBps
      ensures discountCache - {a} == old(discountCache) - {a}
    {
      if a in discountCache && now - discountCache[a].cachedAt < DISCOUNT_TTL {
        return discountCache[a].discountBps;
      }
      var answer := provider(a);
      if answer.None? {
        return 0;
      }
      discountCache := discountCache[a := DiscountEntry(answer.value, now)];
      return answer.value;
    }

    method EffectiveFee(sender: Address, provider: Option<Provider>, now: nat) returns (fee: nat)
      modifies this`discountCache
      ensures fee == match provider
                     case None => baseFee
                     case Some(p) => Discounted(baseFee, DiscountFor(old(discountCache), sender, p, now))
    {
      fee := baseFee;
      if provider.None? {
        return;
      }
      var discountBps := GetCachedDiscount(sender, provider.value, now);
      if discountBps == 0 {
        return;
      }
      var discount: int := discountBps;
      var effective := Scaled(fee, Wrap64(10000 - discount));
      if effective < MIN_FEE {
        return MIN_FEE;
      }
      fee := effective;
    }
  }
}
