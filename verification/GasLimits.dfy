/**
  * Exactly when the gas limits of a block and of a popped batch are kept: as long as the
  * largest gas amount a transaction may offer cannot make a sum wrap.
  */
module GasLimits {
  import opened Common
  import opened Transactions
  import opened Ledger
  import opened Execution
  import opened TransactionProofs
  import BlockProofs
  import opened ChainState
  import opened LanePool
  import opened LanePoolProofs
  import LaneShares
  import Feasibility

  // ---------- a block ----------

  predicate OfferAtMost(txs: seq<Tx>, g: u64) {
    forall tx :: tx in txs ==> tx.gas <= g
  }

  /** No block of transactions that offer at most g exceeds its limit, whatever the EVM and the state. */
  ghost predicate BlocksKeepLimit(g: u64) {
    forall m: Machine, ctx: BlockCtx, w: World, txs: seq<Tx> ::
      WellBehaved(m) && ctx.gasLimit == BLOCK_GAS && WorldOk(m, w) && KeyHeld(m, txs) && OfferAtMost(txs, g) ==>
        Execute(m, ctx, w, txs).gas <= BLOCK_GAS
  }

  lemma SmallOffersKeepLimit(g: u64)
    requires g + BLOCK_GAS < U64
    ensures BlocksKeepLimit(g)
  {
    forall m: Machine, ctx: BlockCtx, w: World, txs: seq<Tx> |
      WellBehaved(m) && ctx.gasLimit == BLOCK_GAS && WorldOk(m, w) && KeyHeld(m, txs) && OfferAtMost(txs, g)
      ensures Execute(m, ctx, w, txs).gas <= BLOCK_GAS
    {
      BlockProofs.BlockGas(m, ctx, w, txs);
    }
  }

  const SENDER: Address := [1, 0, 0, 0, 0, 0, 0, 0, 0, 0, 0, 0, 0, 0, 0, 0, 0, 0, 0, 0]

  /** Transfers value; uses all the gas of a small call, and all but one unit of a large one. */
  function Hungry(w: World, c: Call): VmResult {
    Feasibility.PlainTransfer(SENDER, w, c).(leftover := if c.gas <= BLOCK_GAS then 0 else 1)
  }

  function HungryMachine(): Machine {
    Machine(
      (ctx: BlockCtx, w: World, c: Call) => Hungry(w, c),
      (tx: Tx) => Some(0),
      (a: Address, n: u64) => SENDER,
      (a: Address) => a == SENDER)
  }

  lemma HungryBehaves()
    ensures WellBehaved(HungryMachine())
  {
    hide Feasibility.PlainTransfer;
    var m := HungryMachine();
    forall ctx: BlockCtx, w: World, c: Call | Callable(m, w, c)
      ensures Honours(m, w, c, m.run(ctx, w, c))
    {
      Feasibility.PlainTransferHonours(m, SENDER, w, c);
    }
  }

  /** A call to oneself at price zero; its nonce tells its hash from the others'. */
  function FreeCall(nonce: byte, gas: u64): Tx {
    Tx(ZERO_HASH[31 := nonce], Some(SENDER), nonce, Some(SENDER), 0, gas, 0, [])
  }

  lemma FreeCallAccepted(ctx: BlockCtx, w: World, nonce: byte, gas: u64, cumulative: u64, index: nat)
    requires NonceOf(w, SENDER) == nonce && w.refund == 0
    ensures var r := ApplyTx(HungryMachine(), ctx, w, FreeCall(nonce, gas), cumulative, index);
            && r.Accepted? && r.receipt.gasUsed == (if gas <= BLOCK_GAS then gas else gas - 1)
            && NonceOf(r.world, SENDER) == nonce + 1 && r.world.refund == 0
  {
    hide Wrap256, BalanceOf;
    var tx := FreeCall(nonce, gas);
    assert Cost(gas, 0) == 0;
    var bought := BuyGas(w, SENDER, tx);
    WrapSmall(nonce + 1);
    var vm := Hungry(bought, CallOf(tx, SENDER, gas));
    GasExact(tx, vm);
    SettledNonces(ctx, SENDER, tx, vm);
  }

  /** Two free calls that together offer 2^64 make a block that uses 2^64 - 1. */
  lemma TwoCallsOverflow(ctx: BlockCtx, g: u64)
    requires ctx.gasLimit == BLOCK_GAS && g + BLOCK_GAS >= U64
    ensures Execute(HungryMachine(), ctx, EMPTY_WORLD, [FreeCall(0, U64 - g), FreeCall(1, g)]).gas == U64 - 1
  {
    hide ApplyTx;
    var m, first: u64 := HungryMachine(), U64 - g;
    var txs, attempt := [FreeCall(0, first), FreeCall(1, g)], Attempting(m, ctx);
    FreeCallAccepted(ctx, EMPTY_WORLD, 0, first, 0, 0);
    var w := ApplyTx(m, ctx, EMPTY_WORLD, txs[0], 0, 0).world;
    WrapSmall(0 + first);
    BlockProofs.LoopStep(attempt, BLOCK_GAS, EMPTY_WORLD, txs, 0, 0);
    FreeCallAccepted(ctx, w, 1, g, first, 1);
    assert txs[1..] == [txs[1]] && [txs[1]][1..] == [];
    assert Wrap64(first + g) == 0;
    WrapSmall(first + (g - 1));
    BlockProofs.LoopStep(attempt, BLOCK_GAS, w, txs[1..], 1, first);
  }

  /**
    * The block gas limit holds, for every well-behaved EVM, state and list of transactions
    * that offer at most g, if and only if g and the limit together fit in 64 bits.
    */
  lemma BlockLimitExactly(g: u64)
    ensures BlocksKeepLimit(g) <==> g + BLOCK_GAS < U64
  {
    if g + BLOCK_GAS < U64 {
      SmallOffersKeepLimit(g);
    } else {
      var ctx := BlockCtx(1, 0, SENDER, BLOCK_GAS, 0, ZERO_HASH);
      var txs := [FreeCall(0, U64 - g), FreeCall(1, g)];
      HungryBehaves();
      TwoCallsOverflow(ctx, g);
      assert WorldOk(HungryMachine(), EMPTY_WORLD);
      assert KeyHeld(HungryMachine(), txs) && OfferAtMost(txs, g);
    }
  }

  // ---------- a popped batch ----------

  predicate QueuedAtMost(p: Pool, g: u64) {
    forall l: Lane, m {:trigger m in p.queues.Of(l)} :: m in p.queues.Of(l) ==> m.tx.gas <= g
  }

  /** No batch popped from a pool whose transactions offer at most g exceeds the limit. */
  ghost predicate PopsKeepLimit(limit: u64, g: u64) {
    forall p: Pool, maxTx: int :: PoolOk(p) && QueuedAtMost(p, g) ==> GasOf(PopBatch(p, maxTx, limit).batch) <= limit
  }

  lemma SmallOffersPop(limit: u64, g: u64)
    requires g + limit < U64
    ensures PopsKeepLimit(limit, g)
  {
    hide PoolOk, PopBatch, GasOf;
    forall p: Pool, maxTx: int | PoolOk(p) && QueuedAtMost(p, g)
      ensures GasOf(PopBatch(p, maxTx, limit).batch) <= limit
    {
      assert p.queues.fast == p.queues.Of(LaneFast);
      assert p.queues.std == p.queues.Of(LaneStandard);
      assert p.queues.slow == p.queues.Of(LaneSlow);
      LaneShares.PopBounds(p, maxTx, limit);
    }
  }

  /** A pool with two transactions in the fast lane, the older one first. */
  function TwoQueued(x: u64, y: u64): Pool {
    Add(Add(Empty(0.0, 2, 0), FreeCall(0, x), SENDER, 1.0), FreeCall(1, y), SENDER, 1.0)
  }

  lemma TwoQueuedIs(x: u64, y: u64)
    ensures var p := TwoQueued(x, y);
            && PoolOk(p) && p.queues.std == [] && p.queues.slow == [] && |p.queues.fast| == 2
            && p.queues.fast[0].tx.gas == x && p.queues.fast[1].tx.gas == y
  {
    var empty := Empty(0.0, 2, 0);
    var one := Add(empty, FreeCall(0, x), SENDER, 1.0);
    EmptyOk(0.0, 2, 0);
    AddOk(empty, FreeCall(0, x), SENDER, 1.0);
    AddOk(one, FreeCall(1, y), SENDER, 1.0);
    hide PoolOk, PriorityOf;
    assert FreeCall(0, x).hash[31] != FreeCall(1, y).hash[31];
    var head, next := NewMeta(empty, FreeCall(0, x), SENDER, 1.0), NewMeta(one, FreeCall(1, y), SENDER, 1.0);
    assert one.queues.fast == [head] && head.priority == next.priority;
    assert Insert([head][1..], next) == [next];
    assert Insert([head], next) == [head] + [next];
  }

  /** The head takes the whole limit in the second phase, and what follows wraps past the guard. */
  lemma BothPopped(p: Pool, limit: u64, g: u64)
    requires limit + g >= U64 && p.queues.std == [] && p.queues.slow == [] && |p.queues.fast| == 2
    requires p.queues.fast[0].tx.gas == limit && p.queues.fast[1].tx.gas == g
    ensures GasOf(PopBatch(p, 2, limit).batch) == limit + g
  {
    hide Drain, Share, Fit, GasOf;
    var start := Popping(p, [], limit);
    LaneShares.SharesExactly(limit);
    DrainsNothing(start, LaneFast, 2, Share(limit, 4000));
    DrainsNothing(start, LaneStandard, 2, Share(limit, 4000));
    DrainsNothing(start, LaneSlow, 2, Share(limit, 2000));
    DrainsBoth(start, limit, g);
  }

  lemma DrainsNothing(s: Popping, l: Lane, maxTx: int, gas: u64)
    requires s.pool.queues.Of(l) == [] || s.pool.queues.Of(l)[0].tx.gas > gas
    ensures Drain(s, l, maxTx, gas) == s
  {
    var q := s.pool.queues.Of(l);
    assert Fit(q, maxTx - |s.batch|, gas, 0) == 0;
    assert q[..0] == [] && q[0..] == q && s.pool.known - HashesIn([]) == s.pool.known;
    assert s.pool.queues.With(l, q) == s.pool.queues;
  }

  lemma DrainsBoth(s: Popping, limit: u64, g: u64)
    requires limit + g >= U64 && s.batch == [] && s.remaining == limit && |s.pool.queues.fast| == 2
    requires s.pool.queues.fast[0].tx.gas == limit && s.pool.queues.fast[1].tx.gas == g
    ensures var t := Drain(s, LaneFast, 2, limit); |t.batch| == 2 && GasOf(t.batch) == limit + g
  {
    var q := s.pool.queues.fast;
    assert Wrap64(limit + g) == limit + g - U64;
    assert Fit(q[1..][1..], 0, limit, Wrap64(limit + g)) == 0;
    assert Fit(q[1..], 1, limit, limit) == 1;
    assert Wrap64(0 + limit) == limit;
    assert Fit(q, 2, limit, 0) == 2;
    assert Drain(s, LaneFast, 2, limit).batch == [] + q[..2] == q;
    GasOfTwo(q);
  }

  lemma GasOfTwo(q: seq<TxMeta>)
    requires |q| == 2
    ensures GasOf(q) == q[0].tx.gas + q[1].tx.gas
  {
    assert GasOf(q[1..]) == q[1].tx.gas + GasOf(q[1..][1..]);
  }

  /**
    * Up to a limit of 2^63, no batch exceeds the limit it was popped under, for every pool
    * whose transactions offer at most g, if and only if g and the limit fit in 64 bits.
    */
  lemma PopLimitExactly(limit: u64, g: u64)
    requires limit <= 0x8000_0000_0000_0000
    ensures PopsKeepLimit(limit, g) <==> g + limit < U64
  {
    if g + limit < U64 {
      SmallOffersPop(limit, g);
    } else {
      var p := TwoQueued(limit, g);
      TwoQueuedIs(limit, g);
      BothPopped(p, limit, g);
      assert QueuedAtMost(p, g);
    }
  }
}
