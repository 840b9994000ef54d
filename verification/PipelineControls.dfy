/**
  * The controllers over every interleaving: with a well-behaved EVM and submitted gas whose
  * sums cannot wrap, block gas stays within the popped limit and both controllers in bounds.
  */
module PipelineControls {
  import opened Common
  import opened Transactions
  import opened Ledger
  import opened Execution
  import BlockProofs
  import opened LanePool
  import opened LaneConservation
  import LaneShares
  import opened Producing
  import FeeModel
  import AdaptiveSizer
  import opened ChainState
  import opened ChainProofs
  import ChainLaws
  import opened Pipeline
  import opened PipelineProofs

  // ---------- conditions on submissions ----------

  function TopGas(c: SysConfig): u64 {
    if c.sizer.Some? then c.sizer.value.maxGas else c.maxGas
  }

  ghost predicate SysConfigOk(c: SysConfig) {
    && WellBehaved(c.chain.machine)
    && (c.sizer.Some? ==> AdaptiveSizer.ConfigOk(c.sizer.value) && AdaptiveSizer.NoWrap(c.sizer.value))
  }

  /** Recovered to an account that holds a key. */
  predicate Keyed(c: SysConfig, tx: Tx) {
    tx.from.Some? ==> c.chain.machine.eoa(tx.from.value)
  }

  /** Not the last nonce there is. */
  predicate NonceFits(tx: Tx) {
    tx.nonce + 1 < U64
  }

  /** Gas sums with this transaction cannot wrap. */
  predicate GasModest(c: SysConfig, tx: Tx) {
    tx.gas + TopGas(c) < U64 && tx.gas + BLOCK_GAS < U64
  }

  predicate KeyedAndModest(c: SysConfig, tx: Tx) {
    Keyed(c, tx) && GasModest(c, tx)
  }

  predicate KeyedAndFits(c: SysConfig, tx: Tx) {
    Keyed(c, tx) && NonceFits(tx)
  }

  predicate All(p: Tx -> bool, txs: multiset<Tx>) {
    forall tx :: tx in txs ==> p(tx)
  }

  predicate SubmitsAll(p: Tx -> bool, es: seq<Event>) {
    forall i :: 0 <= i < |es| && es[i].Submit? ==> p(es[i].entry.tx)
  }

  /** Only submissions are ever accepted. */
  lemma {:induction false} AcceptedAll(p: Tx -> bool, c: SysConfig, a: Audited, es: seq<Event>)
    requires All(p, a.accepted) && SubmitsAll(p, es)
    ensures All(p, Run(c, a, es).accepted)
  {
    if es != [] {
      var front := es[..|es| - 1];
      assert forall i :: 0 <= i < |front| ==> front[i] == es[i];
      AcceptedAll(p, c, a, front);
      StepAccepts(c, Run(c, a, front), es[|es| - 1]);
    }
  }

  lemma StepAccepts(c: SysConfig, a: Audited, e: Event)
    ensures var z := Step(c, a, e);
            z.accepted == a.accepted || (e.Submit? && z.accepted == a.accepted + multiset{e.entry.tx})
  {
    hide PopStep, CommitOf, FinishStep, CollectOf, SendOf, AddEntry, AddOutcome;
  }

  // ---------- membership ----------

  lemma Queued(p: Tx -> bool, a: Audited, l: Lane, m: TxMeta)
    requires Balanced(a) && All(p, a.accepted) && m in a.sys.core.pool.queues.Of(l)
    ensures p(m.tx)
  {
    var s := a.sys.core.pool.queues.Of(l);
    var i :| 0 <= i < |s| && s[i] == m;
    assert TxsOf(s)[i] == m.tx;
    assert m.tx in multiset(TxsOf(s));
    assert m.tx in Bag(a.sys.core.pool.queues);
    assert m.tx in a.accepted;
  }

  lemma InFlight(p: Tx -> bool, a: Audited, tx: Tx)
    requires Balanced(a) && All(p, a.accepted) && tx in FlightTxs(a.sys.flight)
    ensures p(tx)
  {
    assert tx in multiset(FlightTxs(a.sys.flight));
    assert tx in a.accepted;
  }

  lemma InBlocks(p: Tx -> bool, a: Audited, tx: Tx)
    requires Balanced(a) && All(p, a.accepted) && tx in ChainLaws.TxsIn(Blocks(a.sys))
    ensures p(tx)
  {
    assert tx in multiset(ChainLaws.TxsIn(Blocks(a.sys)));
    assert tx in a.accepted;
  }

  lemma PoolGasFits(c: SysConfig, a: Audited, gasLimit: u64)
    requires gasLimit <= TopGas(c)
    requires Balanced(a) && All((tx: Tx) => KeyedAndModest(c, tx), a.accepted)
    ensures LaneShares.GasFits(a.sys.core.pool, gasLimit)
  {
    var p := (tx: Tx) => KeyedAndModest(c, tx);
    var q := a.sys.core.pool.queues;
    forall m | m in q.fast ensures m.tx.gas + gasLimit < U64 { Queued(p, a, LaneFast, m); }
    forall m | m in q.std ensures m.tx.gas + gasLimit < U64 { Queued(p, a, LaneStandard, m); }
    forall m | m in q.slow ensures m.tx.gas + gasLimit < U64 { Queued(p, a, LaneSlow, m); }
  }

  lemma BlocksKeyed(c: SysConfig, a: Audited)
    requires Balanced(a) && All((tx: Tx) => Keyed(c, tx), a.accepted)
    ensures KeyHeld(c.chain.machine, ChainLaws.TxsIn(Blocks(a.sys)))
  {
    forall tx | tx in ChainLaws.TxsIn(Blocks(a.sys))
      ensures Keyed(c, tx)
    {
      InBlocks((tx: Tx) => Keyed(c, tx), a, tx);
    }
  }

  // ---------- the invariant ----------

  predicate ControlOk(c: SysConfig, fee: FeeModel.Fee, size: AdaptiveSizer.Size) {
    && FeeModel.InRange(fee)
    && (c.sizer.Some? ==> AdaptiveSizer.InBounds(c.sizer.value, size))
  }

  predicate FlightGas(f: Flight) {
    match f
    case Idle => true
    case Popped(batch, gasLimit) => GasOf(batch) <= gasLimit
    case Returning(_, usage) => usage.Some? ==> usage.value.gasUsed <= usage.value.gasLimit
  }

  predicate Controlled(c: SysConfig, a: Audited) {
    ControlOk(c, a.sys.core.fee, a.sys.core.size) && FlightGas(a.sys.flight)
  }

  lemma PopControlled(c: SysConfig, a: Audited)
    requires Balanced(a) && All((tx: Tx) => KeyedAndModest(c, tx), a.accepted)
    requires Controlled(c, a)
    ensures var (core, flight) := PopStep(c, a.sys.core);
            core.fee == a.sys.core.fee && core.size == a.sys.core.size && FlightGas(flight)
  {
    hide PopBatch;
    var core := a.sys.core;
    PoolGasFits(c, a, GasLimit(c, core));
    LaneShares.PopBounds(core.pool, MaxTx(c, core), GasLimit(c, core));
  }

  lemma BatchGas(m: Machine, ctx: BlockCtx, w: World, batch: seq<TxMeta>, gasLimit: u64)
    requires WellBehaved(m) && WorldOk(m, w) && ctx.gasLimit == BLOCK_GAS && GasOf(batch) <= gasLimit
    requires KeyHeld(m, TxsOf(batch)) && BlockProofs.GasFits(TxsOf(batch), BLOCK_GAS)
    ensures Execute(m, ctx, w, TxsOf(batch)).gas <= Min(gasLimit, BLOCK_GAS)
  {
    OfferedIsGasOf(batch);
    BlockProofs.BlockGas(m, ctx, w, TxsOf(batch));
  }

  /** A block made from a popped batch uses at most the popped limit, and at most 30M. */
  lemma CommitWithinLimit(
    c: SysConfig, base: World, core: Core, batch: seq<TxMeta>, gasLimit: u64,
    timestamp: u64, commitOk: bool, writeOk: bool)
    requires WellBehaved(c.chain.machine) && NodeOk(c.chain, base, core.node) && CommitOk(c, core, batch, timestamp)
    requires NoDuplicates(batch) && GasOf(batch) <= gasLimit
    requires WorldOk(c.chain.machine, Replay(c.chain.machine, base, BlocksOf(core.node.history)))
    requires KeyHeld(c.chain.machine, TxsOf(batch)) && BlockProofs.GasFits(TxsOf(batch), BLOCK_GAS)
    ensures var r := ProduceNext(c.chain, core.node, TxsOf(batch), timestamp, core.fee.baseFee, commitOk, writeOk);
            r.Some? && r.value.outcome.Produced? ==> r.value.outcome.block.header.gasUsed <= Min(gasLimit, BLOCK_GAS)
  {
    hide NodeOk, ExecuteAndCommitBlock, WellBehaved, WorldOk, KeyHeld, BlockProofs.GasFits, BlockHashAt,
      Execute, NoDuplicates, Replay;
    var n, m, txs := core.node, c.chain.machine, TxsOf(batch);
    var parent := BlockHashAt(n.history, n.number);
    if parent.Some? {
      BatchDistinct(batch);
      var committed := CommitKeeps(
        c.chain, base, n, txs, timestamp, parent.value, core.fee.baseFee, commitOk, writeOk);
      BatchGas(
        m, CtxOf(c.chain, Wrap64(n.number + 1), timestamp, parent.value, core.fee.baseFee),
        Replay(m, base, BlocksOf(n.history)), batch, gasLimit);
    }
  }

  lemma BatchVetted(c: SysConfig, a: Audited)
    requires Balanced(a) && All((tx: Tx) => KeyedAndModest(c, tx), a.accepted) && a.sys.flight.Popped?
    ensures var txs := TxsOf(a.sys.flight.batch);
            KeyHeld(c.chain.machine, txs) && BlockProofs.GasFits(txs, BLOCK_GAS)
  {
    forall tx | tx in TxsOf(a.sys.flight.batch)
      ensures KeyedAndModest(c, tx)
    {
      InFlight((tx: Tx) => KeyedAndModest(c, tx), a, tx);
    }
  }

  lemma CommitControlled(c: SysConfig, base: World, a: Audited, timestamp: u64, commitOk: bool, writeOk: bool)
    requires WellBehaved(c.chain.machine) && WorldOk(c.chain.machine, base)
    requires SysOk(c, base, a) && All((tx: Tx) => KeyedAndModest(c, tx), a.accepted)
    requires a.sys.flight.Popped? && CommitOk(c, a.sys.core, a.sys.flight.batch, timestamp) && Controlled(c, a)
    ensures var sys := CommitOf(c, a.sys, timestamp, commitOk, writeOk);
            sys.core.fee == a.sys.core.fee && sys.core.size == a.sys.core.size && FlightGas(sys.flight)
  {
    hide BatchingOk, PoolOk, ProduceNext, CommitOk, CommitOf, Balanced, NodeOk, WellBehaved;
    var core, batch, gasLimit := a.sys.core, a.sys.flight.batch, a.sys.flight.gasLimit;
    AcceptedKeyed(c, a);
    BlocksKeyed(c, a);
    BatchVetted(c, a);
    ReplayOk(c, base, core.node);
    CommitWithinLimit(c, base, core, batch, gasLimit, timestamp, commitOk, writeOk);
    var r := ProduceNext(c.chain, core.node, TxsOf(batch), timestamp, core.fee.baseFee, commitOk, writeOk);
    CommitForm(c, a.sys, timestamp, commitOk, writeOk, r);
  }

  lemma AcceptedKeyed(c: SysConfig, a: Audited)
    requires All((tx: Tx) => KeyedAndModest(c, tx), a.accepted)
    ensures All((tx: Tx) => Keyed(c, tx), a.accepted)
  {}

  lemma ReplayOk(c: SysConfig, base: World, n: Node)
    requires WellBehaved(c.chain.machine) && NodeOk(c.chain, base, n) && WorldOk(c.chain.machine, base)
    requires KeyHeld(c.chain.machine, ChainLaws.TxsIn(BlocksOf(n.history)))
    ensures WorldOk(c.chain.machine, Replay(c.chain.machine, base, BlocksOf(n.history)))
  {
    ChainLaws.ChainConserves(c.chain, base, BlocksOf(n.history));
  }

  lemma FinishControlled(c: SysConfig, a: Audited)
    requires c.sizer.Some? ==> AdaptiveSizer.ConfigOk(c.sizer.value) && AdaptiveSizer.NoWrap(c.sizer.value)
    requires a.sys.flight.Returning? && Controlled(c, a)
    ensures var core := FinishStep(c, a.sys.core, a.sys.flight.usage); ControlOk(c, core.fee, core.size)
  {
    var usage := a.sys.flight.usage;
    if usage.Some? {
      FeeModel.StepBounds(a.sys.core.fee, usage.value.gasUsed, usage.value.gasLimit);
      if c.sizer.Some? {
        AdaptiveSizer.StepInBounds(c.sizer.value, a.sys.core.size, usage.value.gasUsed, usage.value.gasLimit);
      }
    }
  }

  lemma StepControlled(c: SysConfig, base: World, a: Audited, e: Event)
    requires SysConfigOk(c) && WorldOk(c.chain.machine, base)
    requires SysOk(c, base, a) && PipelineProofs.EventOk(c, a, e)
    requires All((tx: Tx) => KeyedAndModest(c, tx), a.accepted) && Controlled(c, a)
    ensures Controlled(c, Step(c, a, e))
  {
    hide ChainSound, BatchingOk, PoolOk, Balanced, CommitOk, PopStep, CommitOf, FinishStep, CollectOf, SendOf,
      ControlOk;
    if !a.sys.halted {
      match e
      case Pop => if a.sys.flight.Idle? { PopControlled(c, a); }
      case Commit(timestamp, commitOk, writeOk) =>
        if a.sys.flight.Popped? { CommitControlled(c, base, a, timestamp, commitOk, writeOk); }
      case Finish => if a.sys.flight.Returning? { FinishControlled(c, a); }
      case Collect => CollectTxs(a.sys);
      case Send(l1TxHash, size, writeOk) => if a.sys.frame.Some? { SendSame(a.sys, l1TxHash, size, writeOk); }
      case _ =>
    }
  }

  lemma SendSame(sys: Sys, l1TxHash: Option<Hash>, size: nat, writeOk: bool)
    requires sys.frame.Some?
    ensures var z := SendOf(sys, l1TxHash, size, writeOk);
            z.core.fee == sys.core.fee && z.core.size == sys.core.size && z.flight == sys.flight
  {}

  /** Both controllers stay in their bounds over the whole run, because block gas never exceeds the popped limit. */
  lemma {:induction false} RunControlled(c: SysConfig, base: World, a: Audited, es: seq<Event>)
    requires SysConfigOk(c) && WorldOk(c.chain.machine, base)
    requires SysOk(c, base, a) && PipelineProofs.RunOk(c, a, es) && Controlled(c, a)
    requires All((tx: Tx) => KeyedAndModest(c, tx), a.accepted) && SubmitsAll((tx: Tx) => KeyedAndModest(c, tx), es)
    ensures Controlled(c, Run(c, a, es))
  {
    hide SysOk, SysConfigOk, Controlled;
    if es != [] {
      var front := es[..|es| - 1];
      assert forall i :: 0 <= i < |front| ==> front[i] == es[i];
      RunControlled(c, base, a, front);
      RunKeepsOk(c, base, a, front);
      AcceptedAll((tx: Tx) => KeyedAndModest(c, tx), c, a, front);
      StepControlled(c, base, Run(c, a, front), es[|es| - 1]);
    }
  }
}
