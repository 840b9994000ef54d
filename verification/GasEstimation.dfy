/** Gas estimation: a binary search over simulated calls that leaves the state as it was. */
module GasEstimation {
  import opened Common
  import opened Transactions
  import opened Ledger
  import opened Execution
  import opened EvmExecutor

  /** A gas limit of zero means half of all there is. */
  function GasFor(g: u64): u64 {
    if g == 0 then 0x7fff_ffff_ffff_ffff else g
  }

  /** The EVM takes the value in 256 bits. */
  function CallFor(msg: Call, g: u64): Call {
    msg.(gas := GasFor(g), value := Wrap256(msg.value))
  }

  predicate Succeeds(m: Machine, ctx: BlockCtx, w: World, msg: Call, g: u64) {
    !m.run(ctx, w, CallFor(msg, g)).failed
  }

  function UsedAt(m: Machine, ctx: BlockCtx, w: World, msg: Call, g: u64): u64 {
    Wrap64(GasFor(g) - m.run(ctx, w, CallFor(msg, g)).leftover)
  }

  /**
    * A simulated call runs as it is with the gas asked for, or with 2^63 - 1 if none is, and
    * what it used is that gas less what the EVM left.
    */
  lemma CallUses(m: Machine, ctx: BlockCtx, w: World, msg: Call, g: u64)
    requires msg.value < U256
    ensures var offered := if g == 0 then 9_223_372_036_854_775_807 else g;
            var vm := m.run(ctx, w, msg.(gas := offered));
            && (Succeeds(m, ctx, w, msg, g) <==> !vm.failed)
            && (vm.leftover <= offered ==> UsedAt(m, ctx, w, msg, g) + vm.leftover == offered)
  {
    var vm := m.run(ctx, w, CallFor(msg, g));
    Wrap256Small(msg.value);
    if vm.leftover <= GasFor(g) {
      WrapSmall(GasFor(g) - vm.leftover);
    }
  }

  /** The search starts above this and never tries it. */
  function Floor(msg: Call): u64 {
    if msg.to.None? then 53000 else 21000
  }

  /** More gas never turns success into failure, between the floor and the limit. */
  ghost predicate Monotone(m: Machine, ctx: BlockCtx, w: World, msg: Call) {
    forall g: u64, h: u64 :: Floor(msg) < g <= h <= ctx.gasLimit && Succeeds(m, ctx, w, msg, g) ==>
      Succeeds(m, ctx, w, msg, h)
  }

  /** The answer when the call fails even with all the gas of a block. */
  function Fallback(used: u64, limit: u64, creation: bool): u64 {
    if used > 0 then Min(Wrap64(used * 120) / 100, limit)
    else if creation then 3_000_000
    else 100_000
  }

  /** The fallback is 120% of the gas used, rounded down, but not more than the limit; with nothing used, a fixed amount. */
  lemma FallbackExactly(used: u64, limit: u64, creation: bool)
    requires used * 120 < U64
    ensures var g := Fallback(used, limit, creation);
            && (used == 0 ==> g == if creation then 3_000_000 else 100_000)
            && (0 < used ==> g <= limit && 100 * g <= 120 * used)
            && (0 < used && g < limit ==> 120 * used < 100 * (g + 1))
  {
    WrapSmall(used * 120);
  }

  method CallContract(m: Machine, stateDB: StateDB, ctx: BlockCtx, msg: Call) returns (used: u64, failed: bool)
    modifies stateDB`world
    ensures failed == !Succeeds(m, ctx, old(stateDB.world), msg, msg.gas)
    ensures used == UsedAt(m, ctx, old(stateDB.world), msg, msg.gas)
  {
    var gas := msg.gas;
    if gas == 0 {
      gas := 0x7fff_ffff_ffff_ffff;
    }
    var vm := m.run(ctx, stateDB.world, msg.(gas := gas, value := Wrap256(msg.value)));
    stateDB.world := vm.world;
    used, failed := Wrap64(gas - vm.leftover), vm.failed;
  }

  /** One probe: snapshot, call, revert. */
  method Probe(m: Machine, stateDB: StateDB, ctx: BlockCtx, msg: Call, g: u64) returns (used: u64, failed: bool)
    modifies stateDB
    ensures stateDB.world == old(stateDB.world) && stateDB.snapshots == old(stateDB.snapshots)
    ensures failed == !Succeeds(m, ctx, stateDB.world, msg, g)
    ensures used == UsedAt(m, ctx, stateDB.world, msg, g)
  {
    var snap := stateDB.Snapshot();
    used, failed := CallContract(m, stateDB, ctx, msg.(gas := g));
    stateDB.RevertToSnapshot(snap);
    assert stateDB.snapshots == old(stateDB.snapshots);
  }

  // ---------- the search ----------

  predicate Unfinished(lo: u64, hi: u64) {
    lo + 1 < hi
  }

  /** The 64-bit midpoint of two bounds. */
  function Mid(lo: u64, hi: u64): u64 {
    Wrap64(lo + hi) / 2
  }

  /** The bounds after at most n probes. */
  function SearchAfter(m: Machine, ctx: BlockCtx, w: World, msg: Call, lo: u64, hi: u64, n: nat): (u64, u64)
    decreases n
  {
    if n == 0 || !Unfinished(lo, hi) then (lo, hi)
    else
      var mid := Mid(lo, hi);
      if Succeeds(m, ctx, w, msg, mid) then SearchAfter(m, ctx, w, msg, lo, mid, n - 1)
      else SearchAfter(m, ctx, w, msg, mid, hi, n - 1)
  }

  ghost predicate EndsAfter(m: Machine, ctx: BlockCtx, w: World, msg: Call, lo: u64, hi: u64, n: nat) {
    var (l, h) := SearchAfter(m, ctx, w, msg, lo, hi, n);
    !Unfinished(l, h)
  }

  /** The search between the floor and the block's gas limit comes to an end. */
  ghost predicate Ends(m: Machine, ctx: BlockCtx, w: World, msg: Call) {
    exists n: nat :: EndsAfter(m, ctx, w, msg, Floor(msg), ctx.gasLimit, n)
  }

  /** The midpoint lies strictly between the bounds. */
  predicate Halves(lo: u64, hi: u64) {
    lo < Mid(lo, hi) < hi
  }

  /** It does for every interval up to a limit if and only if the limit is at most 2^63. */
  lemma MidpointExactly(limit: u64)
    ensures (forall lo: u64, hi: u64 {:trigger Halves(lo, hi)} :: lo + 1 < hi <= limit ==> Halves(lo, hi)) <==>
            limit <= 0x8000_0000_0000_0000
  {
    if limit <= 0x8000_0000_0000_0000 {
      forall lo: u64, hi: u64 {:trigger Halves(lo, hi)} | lo + 1 < hi <= limit
        ensures Halves(lo, hi)
      {
        WrapSmall(lo + hi);
      }
    } else {
      WrapsBelow(limit - 2, limit);
    }
  }

  lemma WrapsBelow(lo: u64, hi: u64)
    requires lo + hi >= U64
    ensures !Halves(lo, hi)
  {
    assert Wrap64(lo + hi) == lo + hi - 0x1_0000_0000_0000_0000;
  }

  /** While every midpoint halves its interval, the search ends. */
  lemma {:induction false} HalvingEnds(m: Machine, ctx: BlockCtx, w: World, msg: Call, lo: u64, hi: u64) returns (n: nat)
    requires hi <= 0x8000_0000_0000_0000
    ensures EndsAfter(m, ctx, w, msg, lo, hi, n)
    decreases hi - lo
  {
    n := 0;
    if Unfinished(lo, hi) {
      MidpointExactly(hi);
      assert Halves(lo, hi);
      var mid := Mid(lo, hi);
      if Succeeds(m, ctx, w, msg, mid) {
        n := HalvingEnds(m, ctx, w, msg, lo, mid);
      } else {
        n := HalvingEnds(m, ctx, w, msg, mid, hi);
      }
      n := n + 1;
    }
  }

  /** Succeeds with the whole limit and nothing less. */
  function AllOrNothing(limit: u64): Machine {
    Machine(
      (ctx: BlockCtx, w: World, c: Call) => VmResult(w, 0, c.gas < limit, []),
      (tx: Tx) => Some(0),
      (a: Address, n: u64) => a,
      (a: Address) => false)
  }

  /** Above 2^63 no midpoint reaches the limit, so the lower bound never closes in on it. */
  lemma {:induction false} NeverCloses(ctx: BlockCtx, w: World, msg: Call, lo: u64, n: nat)
    requires ctx.gasLimit > 0x8000_0000_0000_0000 && lo < 0x8000_0000_0000_0000
    ensures !EndsAfter(AllOrNothing(ctx.gasLimit), ctx, w, msg, lo, ctx.gasLimit, n)
    decreases n
  {
    if n > 0 {
      NeverCloses(ctx, w, msg, Mid(lo, ctx.gasLimit), n - 1);
    }
  }

  /** With this block gas limit the search ends for every call that succeeds with all of it. */
  ghost predicate AlwaysEnds(limit: u64) {
    forall m: Machine, ctx: BlockCtx, w: World, msg: Call ::
      ctx.gasLimit == limit && Succeeds(m, ctx, w, msg, limit) ==> Ends(m, ctx, w, msg)
  }

  /** It does if and only if the limit is at most 2^63; the node's is 30,000,000. */
  lemma SearchEndsExactly(limit: u64)
    ensures AlwaysEnds(limit) <==> limit <= 0x8000_0000_0000_0000
  {
    if limit <= 0x8000_0000_0000_0000 {
      forall m: Machine, ctx: BlockCtx, w: World, msg: Call | ctx.gasLimit == limit
        ensures Ends(m, ctx, w, msg)
      {
        var n := HalvingEnds(m, ctx, w, msg, Floor(msg), limit);
      }
    } else {
      var a: Address := seq(20, _ => 0);
      var ctx, w := BlockCtx(1, 0, a, limit, 0, ZERO_HASH), World(map[], map[], map[], map[], map[], map[], {}, {}, {}, 0, 0);
      var msg := Call(a, Some(a), [], 0, 0, 0);
      forall n: nat
        ensures !EndsAfter(AllOrNothing(limit), ctx, w, msg, Floor(msg), limit, n)
      {
        NeverCloses(ctx, w, msg, Floor(msg), n);
      }
      assert Succeeds(AllOrNothing(limit), ctx, w, msg, limit);
    }
  }

  /**
    * If the call succeeds with the block's gas limit and the search ends, the answer is an
    * amount it succeeds with; with a limit of at most 2^63, one less than that fails or was
    * not tried.  Nothing of the state changes.
    */
  method EstimateGas(m: Machine, stateDB: StateDB, ctx: BlockCtx, msg: Call) returns (gas: u64)
    requires Succeeds(m, ctx, stateDB.world, msg, ctx.gasLimit) ==> Ends(m, ctx, stateDB.world, msg)
    modifies stateDB
    ensures stateDB.world == old(stateDB.world) && stateDB.snapshots == old(stateDB.snapshots)
    ensures var w := stateDB.world;
            if Succeeds(m, ctx, w, msg, ctx.gasLimit) then
              && gas <= ctx.gasLimit && Succeeds(m, ctx, w, msg, gas)
              && (ctx.gasLimit <= 0x8000_0000_0000_0000 ==>
                    && (gas < ctx.gasLimit ==> gas > if msg.to.None? then 53_000 else 21_000)
                    && (gas > Floor(msg) + 1 ==> !Succeeds(m, ctx, w, msg, gas - 1)))
            else gas == Fallback(UsedAt(m, ctx, w, msg, ctx.gasLimit), ctx.gasLimit, msg.to.None?)
  {
    ghost var w := stateDB.world;
    var lo, hi := 21000, ctx.gasLimit;
    if msg.to.None? {
      lo := 53000;
    }
    var usedAtMax, failedAtMax := Probe(m, stateDB, ctx, msg, hi);
    if failedAtMax {
      if usedAtMax > 0 {
        var used: int := usedAtMax;
        return Min(Wrap64(used * 120) / 100, hi);
      }
      return if msg.to.None? then 3_000_000 else 100_000;
    }
    ghost var left: nat :| EndsAfter(m, ctx, w, msg, lo, hi, left);
    while lo + 1 < hi
      invariant stateDB.world == w && stateDB.snapshots == old(stateDB.snapshots)
      invariant 0 <= lo < U64 && 0 <= hi <= ctx.gasLimit
      invariant Succeeds(m, ctx, w, msg, hi) && EndsAfter(m, ctx, w, msg, lo, hi, left)
      invariant ctx.gasLimit <= 0x8000_0000_0000_0000 ==> Narrowed(m, ctx, w, msg, lo, hi)
      decreases left
    {
      var mid := Wrap64(lo + hi) / 2;
      ProbeStep(m, ctx, w, msg, lo, hi, left);
      var used, failed := Probe(m, stateDB, ctx, msg, mid);
      if failed {
        lo := mid;
      } else {
        hi := mid;
      }
      left := left - 1;
    }
    gas := hi;
  }

  /** Where the bounds can be: the lower one is the floor or fails, the upper one is the limit or was reached from above. */
  ghost predicate Narrowed(m: Machine, ctx: BlockCtx, w: World, msg: Call, lo: u64, hi: u64) {
    && Floor(msg) <= lo
    && (hi < ctx.gasLimit ==> lo < hi)
    && (lo > Floor(msg) ==> lo < hi && !Succeeds(m, ctx, w, msg, lo))
  }

  /** What one probe does to the bounds. */
  lemma ProbeStep(m: Machine, ctx: BlockCtx, w: World, msg: Call, lo: u64, hi: u64, left: nat)
    requires EndsAfter(m, ctx, w, msg, lo, hi, left) && Unfinished(lo, hi) && hi <= ctx.gasLimit
    ensures left > 0 && Mid(lo, hi) <= ctx.gasLimit
    ensures var (l, h) := if Succeeds(m, ctx, w, msg, Mid(lo, hi)) then (lo, Mid(lo, hi)) else (Mid(lo, hi), hi);
            && EndsAfter(m, ctx, w, msg, l, h, left - 1)
            && (ctx.gasLimit <= 0x8000_0000_0000_0000 && Narrowed(m, ctx, w, msg, lo, hi) ==> Narrowed(m, ctx, w, msg, l, h))
  {
    if lo + hi < U64 {
      WrapSmall(lo + hi);
    } else {
      assert Wrap64(lo + hi) == lo + hi - 0x1_0000_0000_0000_0000;
    }
  }

  lemma MoreStillSucceeds(m: Machine, ctx: BlockCtx, w: World, msg: Call, g: u64, h: u64)
    requires Monotone(m, ctx, w, msg) && Floor(msg) < g <= h <= ctx.gasLimit
    ensures Succeeds(m, ctx, w, msg, g) ==> Succeeds(m, ctx, w, msg, h)
  {}

  /** Where success is monotone, what the search returns is the least amount above the floor that succeeds. */
  lemma EstimateIsLeast(m: Machine, ctx: BlockCtx, w: World, msg: Call, gas: u64, g: u64)
    requires Monotone(m, ctx, w, msg)
    requires gas <= ctx.gasLimit && Succeeds(m, ctx, w, msg, gas)
    requires gas > Floor(msg) + 1 ==> !Succeeds(m, ctx, w, msg, gas - 1)
    requires Floor(msg) < g <= ctx.gasLimit && Floor(msg) < gas
    ensures Succeeds(m, ctx, w, msg, g) <==> g >= gas
  {
    if g < gas {
      MoreStillSucceeds(m, ctx, w, msg, g, gas - 1);
    } else {
      MoreStillSucceeds(m, ctx, w, msg, gas, g);
    }
  }
}
