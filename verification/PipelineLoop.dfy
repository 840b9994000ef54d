/**
  * The controllers and the chain, tied together over every interleaving: what the fee model and
  * the sizer have seen is the gas of the blocks produced, under the limits they set themselves.
  */
module PipelineLoop {
  import opened Common
  import opened Transactions
  import opened Ledger
  import opened Execution
  import opened LanePool
  import LaneShares
  import opened Producing
  import FeeModel
  import AdaptiveSizer
  import SizerLoop
  import opened ChainStore
  import opened ChainState
  import opened ChainProofs
  import opened Pipeline
  import opened PipelineProofs
  import opened PipelineControls
  import PipelineTheorems

  /** The gas limit in force after a list of usages. */
  function LimitAfter(c: SysConfig, size: AdaptiveSizer.Size, us: seq<FeeModel.Usage>): u64 {
    if c.sizer.Some? then AdaptiveSizer.Run(c.sizer.value, size, us).gasLimit else c.maxGas
  }

  /** Of each block the gas in its header, and the limit in force after the blocks before it. */
  function UsagesOf(c: SysConfig, size: AdaptiveSizer.Size, blocks: seq<L2Block>): (us: seq<FeeModel.Usage>)
    ensures |us| == |blocks|
  {
    if blocks == [] then []
    else
      var front := UsagesOf(c, size, blocks[..|blocks| - 1]);
      front + [FeeModel.Usage(blocks[|blocks| - 1].header.gasUsed, LimitAfter(c, size, front))]
  }

  lemma UsagesSnoc(c: SysConfig, size: AdaptiveSizer.Size, blocks: seq<L2Block>, b: L2Block)
    ensures var us := UsagesOf(c, size, blocks);
            UsagesOf(c, size, blocks + [b]) == us + [FeeModel.Usage(b.header.gasUsed, LimitAfter(c, size, us))]
  {
    assert (blocks + [b])[..|blocks|] == blocks;
  }

  lemma {:induction false} UsagesPrefix(c: SysConfig, size: AdaptiveSizer.Size, blocks: seq<L2Block>, k: nat)
    requires k <= |blocks|
    ensures UsagesOf(c, size, blocks)[..k] == UsagesOf(c, size, blocks[..k])
    decreases |blocks|
  {
    if k < |blocks| {
      hide LimitAfter;
      var front := blocks[..|blocks| - 1];
      UsagesPrefix(c, size, front, k);
      assert front[..k] == blocks[..k];
      assert UsagesOf(c, size, blocks)[..k] == UsagesOf(c, size, front)[..k];
    } else {
      assert blocks[..k] == blocks;
    }
  }

  // ---------- the invariant ----------

  /** Both controllers are where these usages lead from where they started. */
  ghost predicate Settled(c: SysConfig, start: Core, core: Core, us: seq<FeeModel.Usage>) {
    && core.fee == FeeModel.Run(start.fee, us)
    && core.size == (if c.sizer.Some? then AdaptiveSizer.Run(c.sizer.value, start.size, us) else start.size)
  }

  /** A block produced and not yet finished is the one usage the controllers have not seen. */
  ghost predicate Follows(c: SysConfig, start: Core, core: Core, f: Flight, us: seq<FeeModel.Usage>) {
    match f
    case Idle => Settled(c, start, core, us)
    case Popped(_, gasLimit) => Settled(c, start, core, us) && gasLimit == LimitAfter(c, start.size, us)
    case Returning(_, usage) =>
      if usage.None? then Settled(c, start, core, us)
      else us != [] && us[|us| - 1] == usage.value && Settled(c, start, core, us[..|us| - 1])
  }

  /** The base fee in the k-th header is the one the fee model had come to before it. */
  ghost predicate FeeAt(start: Core, blocks: seq<L2Block>, us: seq<FeeModel.Usage>, k: int) {
    0 <= k < |blocks| && k <= |us| ==> blocks[k].header.baseFee == FeeModel.Run(start.fee, us[..k]).baseFee
  }

  ghost predicate Following(c: SysConfig, start: Core, core: Core, f: Flight, blocks: seq<L2Block>) {
    var us := UsagesOf(c, start.size, blocks);
    && Follows(c, start, core, f, us)
    && forall k: int {:trigger FeeAt(start, blocks, us, k)} :: FeeAt(start, blocks, us, k)
  }

  lemma PopFollows(c: SysConfig, start: Core, core: Core, us: seq<FeeModel.Usage>)
    requires Follows(c, start, core, Idle, us)
    ensures var (popped, flight) := PopStep(c, core); Follows(c, start, popped, flight, us)
  {
    hide PopBatch;
  }

  lemma FinishFollows(c: SysConfig, start: Core, core: Core, f: Flight, us: seq<FeeModel.Usage>)
    requires f.Returning? && Follows(c, start, core, f, us)
    ensures Follows(c, start, FinishStep(c, core, f.usage), Idle, us)
  {}

  /** A produced block is the next usage, with the gas of its header and the limit of its pop. */
  lemma ProducedFollows(
    c: SysConfig, start: Core, core: Core, batch: seq<TxMeta>, gasLimit: u64, blocks: seq<L2Block>, o: Outcome, z: Core)
    requires Following(c, start, core, Popped(batch, gasLimit), blocks) && o.Produced?
    requires o.block.header.baseFee == core.fee.baseFee && z.fee == core.fee && z.size == core.size
    ensures Following(c, start, z, FlightAfter(batch, gasLimit, o), blocks + [o.block])
  {
    hide Returned, FeeModel.Run, AdaptiveSizer.Run;
    var us := UsagesOf(c, start.size, blocks);
    UsagesSnoc(c, start.size, blocks, o.block);
    var more := UsagesOf(c, start.size, blocks + [o.block]);
    assert more[..|us|] == us;
    forall k: int
      ensures FeeAt(start, blocks + [o.block], more, k)
    {
      assert FeeAt(start, blocks, us, k);
      if 0 <= k <= |us| {
        assert more[..k] == us[..k];
        assert k == |us| ==> us[..k] == us;
      }
    }
  }

  lemma FailedFollows(
    c: SysConfig, start: Core, core: Core, batch: seq<TxMeta>, gasLimit: u64, blocks: seq<L2Block>, o: Outcome, z: Core)
    requires Following(c, start, core, Popped(batch, gasLimit), blocks) && o.Failed?
    requires z.fee == core.fee && z.size == core.size
    ensures Following(c, start, z, FlightAfter(batch, gasLimit, o), blocks)
  {
    hide FeeModel.Run, AdaptiveSizer.Run, UsagesOf, FeeAt;
  }

  /** The blocks produced since the start of the run. */
  function Since(a: Audited, z: Audited): seq<L2Block>
    requires Blocks(a.sys) <= Blocks(z.sys)
  {
    Blocks(z.sys)[|Blocks(a.sys)|..]
  }

  ghost predicate FollowsRun(c: SysConfig, a: Audited, z: Audited) {
    Blocks(a.sys) <= Blocks(z.sys) && Following(c, a.sys.core, z.sys.core, z.sys.flight, Since(a, z))
  }

  lemma CommitFollows(
    c: SysConfig, base: World, a: Audited, y: Audited, timestamp: u64, commitOk: bool, writeOk: bool)
    requires SysOk(c, base, y) && y.sys.flight.Popped? && CommitOk(c, y.sys.core, y.sys.flight.batch, timestamp)
    requires FollowsRun(c, a, y)
    ensures FollowsRun(c, a, y.(sys := CommitOf(c, y.sys, timestamp, commitOk, writeOk)))
  {
    hide Following, ChainSound, BatchingOk, PoolOk, Balanced, ProduceNext, CommitOk, CommitOf, FlightAfter, NoDuplicates;
    var core, batch, gasLimit := y.sys.core, y.sys.flight.batch, y.sys.flight.gasLimit;
    var r := CommitChain(c, base, core, batch, timestamp, commitOk, writeOk);
    CommitForm(c, y.sys, timestamp, commitOk, writeOk, r);
    var z := CommitOf(c, y.sys, timestamp, commitOk, writeOk);
    if r.Some? {
      var o := r.value.outcome;
      if o.Produced? {
        HistorySnoc(core.node.history, PutBlock(o.block));
        SinceSnoc(Blocks(a.sys), Blocks(y.sys), o.block);
        ProducedFollows(c, a.sys.core, core, batch, gasLimit, Since(a, y), o, z.core);
      } else {
        FailedFollows(c, a.sys.core, core, batch, gasLimit, Since(a, y), o, z.core);
      }
    } else {
      FollowsHalted(c, a, y);
    }
  }

  lemma SinceSnoc(start: seq<L2Block>, blocks: seq<L2Block>, b: L2Block)
    requires start <= blocks
    ensures start <= blocks + [b] && (blocks + [b])[|start|..] == blocks[|start|..] + [b]
  {}

  lemma FollowsHalted(c: SysConfig, a: Audited, y: Audited)
    requires FollowsRun(c, a, y)
    ensures FollowsRun(c, a, y.(sys := y.sys.(halted := true)))
  {
    hide Following;
  }

  /** Nothing else that happens touches fee, size or limit. */
  lemma StepFollows(c: SysConfig, base: World, a: Audited, y: Audited, e: Event)
    requires SysOk(c, base, y) && EventOk(c, y, e) && FollowsRun(c, a, y)
    ensures FollowsRun(c, a, Step(c, y, e))
  {
    hide SysOk, CommitOk, PopStep, CommitOf, FinishStep, CollectOf, SendOf, SetL1Origin, Settled, UsagesOf, FeeAt, AddEntry,
      AddOutcome;
    if !y.sys.halted {
      match e
      case Pop =>
        if y.sys.flight.Idle? {
          PopFollows(c, a.sys.core, y.sys.core, UsagesOf(c, a.sys.core.size, Since(a, y)));
          PopBlocks(c, y.sys.core);
        }
      case Commit(timestamp, commitOk, writeOk) =>
        if y.sys.flight.Popped? { CommitFollows(c, base, a, y, timestamp, commitOk, writeOk); }
      case Finish =>
        if y.sys.flight.Returning? && y.sys.flight.queue == [] {
          FinishFollows(c, a.sys.core, y.sys.core, y.sys.flight, UsagesOf(c, a.sys.core.size, Since(a, y)));
          FinishPool(c, y.sys.core, y.sys.flight);
        }
      case _ => OtherFollows(c, a, y, e);
    }
  }

  lemma PopBlocks(c: SysConfig, core: Core)
    ensures PopStep(c, core).0.node == core.node
  {}

  lemma OtherFollows(c: SysConfig, a: Audited, y: Audited, e: Event)
    requires !e.Pop? && !e.Commit? && !e.Finish? && FollowsRun(c, a, y)
    ensures FollowsRun(c, a, Step(c, y, e))
  {
    hide CollectOf, SendOf, SetL1Origin, Following, AddEntry, AddOutcome;
    match e
    case Collect =>
      CollectTxs(y.sys);
      SameFollowing(c, a, y, Step(c, y, e));
    case Observe(origin, writeOk) =>
      ObserveTxs(y.sys.core.node, origin, writeOk);
      SameFollowing(c, a, y, Step(c, y, e));
    case Send(l1TxHash, size, writeOk) =>
      if y.sys.frame.Some? {
        SendTxs(y.sys, l1TxHash, size, writeOk);
        SendSame(y.sys, l1TxHash, size, writeOk);
      }
      SameFollowing(c, a, y, Step(c, y, e));
    case _ => SameFollowing(c, a, y, Step(c, y, e));
  }

  /** The invariant looks at the controllers, the blocks and what the producer holds, its queue aside. */
  lemma SameFollowing(c: SysConfig, a: Audited, y: Audited, z: Audited)
    requires FollowsRun(c, a, y) && Blocks(z.sys) == Blocks(y.sys)
    requires z.sys.core.fee == y.sys.core.fee && z.sys.core.size == y.sys.core.size
    requires z.sys.flight == y.sys.flight ||
             (y.sys.flight.Returning? && z.sys.flight.Returning? && z.sys.flight.usage == y.sys.flight.usage)
    ensures FollowsRun(c, a, z)
  {
    hide UsagesOf, FeeAt, FeeModel.Run, AdaptiveSizer.Run;
  }

  lemma StartFollows(c: SysConfig, a: Audited)
    requires a.sys.flight.Idle?
    ensures FollowsRun(c, a, a)
  {
    assert Since(a, a) == [];
  }

  /**
    * Over every interleaving that starts at rest: the controllers have seen, block by block, the
    * gas in the header and the limit in force when the block's batch was popped, and each
    * header's base fee is what the fee model had come to before its block.
    */
  lemma {:induction false} RunFollowsBlocks(c: SysConfig, base: World, a: Audited, es: seq<Event>)
    requires SysOk(c, base, a) && RunOk(c, a, es) && a.sys.flight.Idle?
    ensures FollowsRun(c, a, Run(c, a, es))
  {
    hide SysOk, FollowsRun;
    if es == [] {
      StartFollows(c, a);
    } else {
      var front := es[..|es| - 1];
      RunFollowsBlocks(c, base, a, front);
      RunKeepsOk(c, base, a, front);
      StepFollows(c, base, a, Run(c, a, front), es[|es| - 1]);
    }
  }

  /** Read off at rest, and for every block. */
  lemma ControllersFollowChain(c: SysConfig, base: World, a: Audited, es: seq<Event>, k: nat)
    requires SysOk(c, base, a) && RunOk(c, a, es) && a.sys.flight.Idle? && Run(c, a, es).sys.flight.Idle?
    ensures var z := Run(c, a, es);
            && Blocks(a.sys) <= Blocks(z.sys)
            && var blocks, start := Since(a, z), a.sys.core;
               var us := UsagesOf(c, start.size, blocks);
               && z.sys.core.fee == FeeModel.Run(start.fee, us)
               && (c.sizer.Some? ==> z.sys.core.size == AdaptiveSizer.Run(c.sizer.value, start.size, us))
               && (k < |blocks| ==>
                     && us[k].gasUsed == blocks[k].header.gasUsed
                     && us[k].gasLimit == LimitAfter(c, start.size, us[..k])
                     && blocks[k].header.baseFee == FeeModel.Run(start.fee, us[..k]).baseFee)
  {
    hide SysOk, Run, Blocks, UsagesOf, FeeModel.Run, AdaptiveSizer.Run, LimitAfter;
    RunFollowsBlocks(c, base, a, es);
    var z := Run(c, a, es);
    var blocks := Since(a, z);
    if k < |blocks| {
      assert FeeAt(a.sys.core, blocks, UsagesOf(c, a.sys.core.size, blocks), k);
      UsageAt(c, a.sys.core.size, blocks, k);
    }
  }

  lemma UsageAt(c: SysConfig, size: AdaptiveSizer.Size, blocks: seq<L2Block>, k: nat)
    requires k < |blocks|
    ensures var us := UsagesOf(c, size, blocks);
            us[k] == FeeModel.Usage(blocks[k].header.gasUsed, LimitAfter(c, size, us[..k]))
  {
    hide LimitAfter;
    UsagesPrefix(c, size, blocks, k + 1);
    UsagesPrefix(c, size, blocks, k);
    UsagesSnoc(c, size, blocks[..k], blocks[k]);
    assert blocks[..k + 1] == blocks[..k] + [blocks[k]];
    assert UsagesOf(c, size, blocks)[k] == UsagesOf(c, size, blocks)[..k + 1][k];
  }

  // ---------- the loop closed ----------

  /** Only a commit adds a block, one at a time, and then holds its usage. */
  lemma StepBlocks(c: SysConfig, base: World, y: Audited, e: Event)
    requires SysOk(c, base, y) && EventOk(c, y, e)
    ensures var z := Step(c, y, e);
            || Blocks(z.sys) == Blocks(y.sys)
            || (&& Blocks(y.sys) <= Blocks(z.sys) && |Blocks(z.sys)| == |Blocks(y.sys)| + 1
                && z.sys.flight.Returning? && z.sys.flight.usage.Some?)
  {
    hide SysOk, CommitOk, PopStep, CommitOf, FinishStep, CollectOf, SendOf, SetL1Origin, AddEntry, AddOutcome;
    if !y.sys.halted {
      match e
      case Pop => PopBlocks(c, y.sys.core);
      case Commit(timestamp, commitOk, writeOk) =>
        if y.sys.flight.Popped? { CommitBlocks(c, base, y, timestamp, commitOk, writeOk); }
      case Finish => if y.sys.flight.Returning? { FinishPool(c, y.sys.core, y.sys.flight); }
      case Collect => CollectTxs(y.sys);
      case Observe(origin, writeOk) => ObserveTxs(y.sys.core.node, origin, writeOk);
      case Send(l1TxHash, size, writeOk) => if y.sys.frame.Some? { SendTxs(y.sys, l1TxHash, size, writeOk); }
      case _ =>
    }
  }

  lemma CommitBlocks(c: SysConfig, base: World, y: Audited, timestamp: u64, commitOk: bool, writeOk: bool)
    requires SysOk(c, base, y) && y.sys.flight.Popped? && CommitOk(c, y.sys.core, y.sys.flight.batch, timestamp)
    ensures var z := CommitOf(c, y.sys, timestamp, commitOk, writeOk);
            || Blocks(z) == Blocks(y.sys)
            || (&& Blocks(y.sys) <= Blocks(z) && |Blocks(z)| == |Blocks(y.sys)| + 1
                && z.flight.Returning? && z.flight.usage.Some?)
  {
    hide ChainSound, BatchingOk, PoolOk, Balanced, ProduceNext, CommitOk, CommitOf, NoDuplicates, Returned;
    var core, batch := y.sys.core, y.sys.flight.batch;
    var r := CommitChain(c, base, core, batch, timestamp, commitOk, writeOk);
    CommitForm(c, y.sys, timestamp, commitOk, writeOk, r);
    if r.Some? && r.value.outcome.Produced? {
      HistorySnoc(core.node.history, PutBlock(r.value.outcome.block));
    }
  }

  ghost predicate UsagesFit(us: seq<FeeModel.Usage>) {
    forall k :: 0 <= k < |us| ==> us[k].gasUsed <= us[k].gasLimit
  }

  lemma NextUsageFits(c: SysConfig, a: Audited, y: Audited, z: Audited)
    requires Blocks(a.sys) <= Blocks(y.sys) && UsagesFit(UsagesOf(c, a.sys.core.size, Since(a, y)))
    requires FollowsRun(c, a, z) && Controlled(c, z)
    requires Blocks(y.sys) <= Blocks(z.sys) && |Blocks(z.sys)| == |Blocks(y.sys)| + 1
    requires z.sys.flight.Returning? && z.sys.flight.usage.Some?
    ensures UsagesFit(UsagesOf(c, a.sys.core.size, Since(a, z)))
  {
    hide UsagesOf, Settled, FeeAt, ControlOk;
    var n := |Since(a, y)|;
    assert Since(a, z)[..n] == Since(a, y);
    UsagesPrefix(c, a.sys.core.size, Since(a, z), n);
    var us := UsagesOf(c, a.sys.core.size, Since(a, z));
    assert forall k :: 0 <= k < n ==> us[k] == us[..n][k];
  }

  lemma {:induction false} RunUsagesFit(c: SysConfig, base: World, a: Audited, es: seq<Event>)
    requires SysConfigOk(c) && WorldOk(c.chain.machine, base)
    requires SysOk(c, base, a) && RunOk(c, a, es) && Controlled(c, a) && a.sys.flight.Idle?
    requires All((tx: Tx) => KeyedAndModest(c, tx), a.accepted) && SubmitsAll((tx: Tx) => KeyedAndModest(c, tx), es)
    ensures Blocks(a.sys) <= Blocks(Run(c, a, es).sys)
    ensures UsagesFit(UsagesOf(c, a.sys.core.size, Since(a, Run(c, a, es))))
  {
    hide SysOk, SysConfigOk, WorldOk, Controlled, Following, UsagesOf, UsagesFit, Step, Blocks;
    if es == [] {
      NoUsages(c, a);
    } else {
      var front, last := es[..|es| - 1], es[|es| - 1];
      assert forall i :: 0 <= i < |front| ==> front[i] == es[i];
      RunUsagesFit(c, base, a, front);
      RunFollowsBlocks(c, base, a, es);
      RunControlled(c, base, a, es);
      RunKeepsOk(c, base, a, front);
      var y, z := Run(c, a, front), Run(c, a, es);
      StepBlocks(c, base, y, last);
      if Blocks(z.sys) != Blocks(y.sys) {
        NextUsageFits(c, a, y, z);
      }
    }
  }

  lemma NoUsages(c: SysConfig, a: Audited)
    ensures Since(a, a) == [] && UsagesFit(UsagesOf(c, a.sys.core.size, Since(a, a)))
  {}

  /**
    * The sizer's loop is the pipeline's own: over every interleaving what the sizer has seen is
    * a closed loop in the sense of SizerLoop, each block popped under the limit the sizer had
    * set and using at most that and the execution limit.
    */
  lemma SizerLoopIsPipelines(c: SysConfig, base: World, a: Audited, es: seq<Event>)
    requires SysConfigOk(c) && WorldOk(c.chain.machine, base) && c.sizer.Some?
    requires SysOk(c, base, a) && RunOk(c, a, es) && Controlled(c, a) && a.sys.flight.Idle?
    requires All((tx: Tx) => KeyedAndModest(c, tx), a.accepted) && SubmitsAll((tx: Tx) => KeyedAndModest(c, tx), es)
    ensures var z := Run(c, a, es);
            && Blocks(a.sys) <= Blocks(z.sys)
            && var us := UsagesOf(c, a.sys.core.size, Since(a, z));
               && SizerLoop.ClosedLoop(c.sizer.value, a.sys.core.size, us)
               && (z.sys.flight.Idle? ==>
                     z.sys.core.size == AdaptiveSizer.Run(c.sizer.value, a.sys.core.size, us))
  {
    hide SysOk, SysConfigOk, WorldOk, Controlled, UsagesOf, AdaptiveSizer.Run, FeeModel.Run, FeeAt, Run;
    RunUsagesFit(c, base, a, es);
    RunFollowsBlocks(c, base, a, es);
    var z := Run(c, a, es);
    var us := UsagesOf(c, a.sys.core.size, Since(a, z));
    forall k: int
      ensures SizerLoop.LoopAt(c.sizer.value, a.sys.core.size, us, k)
    {
      if 0 <= k < |us| {
        UsageAt(c, a.sys.core.size, Since(a, z), k);
        BlockGasAt(c, base, a, es, |Blocks(a.sys)| + k);
      }
    }
  }

  lemma BlockGasAt(c: SysConfig, base: World, a: Audited, es: seq<Event>, k: nat)
    requires SysConfigOk(c) && WorldOk(c.chain.machine, base)
    requires SysOk(c, base, a) && RunOk(c, a, es) && k < |Blocks(Run(c, a, es).sys)|
    requires All((tx: Tx) => KeyedAndModest(c, tx), a.accepted) && SubmitsAll((tx: Tx) => KeyedAndModest(c, tx), es)
    ensures Blocks(Run(c, a, es).sys)[k].header.gasUsed <= BLOCK_GAS
  {
    hide SysOk, Run, WorldOk;
    PipelineTheorems.RunGas(c, base, a, es, k);
  }

  // ---------- what a pop asks for ----------

  /**
    * A pop asks for what the sizer allows, or without one for what is configured: the batch
    * keeps to that count and that gas, and if it fell short of both, the head of every lane
    * needs more gas than was left.
    */
  lemma PopUsesLimits(c: SysConfig, core: Core, l: Lane)
    requires LaneShares.GasFits(core.pool, if c.sizer.Some? then core.size.gasLimit else c.maxGas)
    ensures var cap := if c.sizer.Some? then core.size.maxTx else c.maxTx;
            var limit := if c.sizer.Some? then core.size.gasLimit else c.maxGas;
            var (popped, flight) := PopStep(c, core);
            && flight.Popped? && flight.gasLimit == limit
            && |flight.batch| <= Max(cap, 0) && GasOf(flight.batch) <= limit
            && var left := popped.pool.queues.Of(l);
               (|flight.batch| < cap && GasOf(flight.batch) < limit && left != [] ==>
                  GasOf(flight.batch) + left[0].tx.gas > limit)
  {
    hide PopBatch;
    LaneShares.PopBounds(core.pool, MaxTx(c, core), GasLimit(c, core));
    LaneShares.PopConservesWork(core.pool, MaxTx(c, core), GasLimit(c, core), l);
  }
}
