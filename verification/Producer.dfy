/** The block producer itself, driving pool, state manager, controllers and receipt store. */
module Producer {
  import opened Common
  import opened Transactions
  import opened Execution
  import opened LanePool
  import opened LaneConservation
  import opened Producing
  import opened ChainStore
  import opened ChainState
  import LanedMempool
  import StateManager
  import FeeModel
  import AdaptiveSizer
  import Receipts
  import ComputeReceipts
  import Pipeline

  /** The compute receipts of a block, in transaction order. */
  function ReceiptsOf(
    sha: Receipts.Digest, keccak: Receipts.Digest, txs: seq<Tx>, rs: seq<Receipt>,
    number: u64, pre: Hash, post: Hash, now: nat)
    : seq<Receipts.ComputeReceipt>
    requires |txs| == |rs|
  {
    seq(|rs|, i requires 0 <= i < |rs| =>
      ComputeReceipts.ReceiptFor(sha, keccak, txs[i], rs[i], number, Wrap64(i), pre, post, now))
  }

  lemma ReceiptsSnoc(
    sha: Receipts.Digest, keccak: Receipts.Digest, txs: seq<Tx>, rs: seq<Receipt>,
    number: u64, pre: Hash, post: Hash, now: nat, i: nat)
    requires i < |txs| == |rs|
    ensures ReceiptsOf(sha, keccak, txs[..i + 1], rs[..i + 1], number, pre, post, now) ==
            ReceiptsOf(sha, keccak, txs[..i], rs[..i], number, pre, post, now) +
            [ComputeReceipts.ReceiptFor(sha, keccak, txs[i], rs[i], number, Wrap64(i), pre, post, now)]
  {
    hide ComputeReceipts.ReceiptFor;
    var longer := ReceiptsOf(sha, keccak, txs[..i + 1], rs[..i + 1], number, pre, post, now);
    var shorter := ReceiptsOf(sha, keccak, txs[..i], rs[..i], number, pre, post, now);
    forall k | 0 <= k < i
      ensures longer[k] == shorter[k]
    {
      assert txs[..i + 1][k] == txs[..i][k] && rs[..i + 1][k] == rs[..i][k];
    }
    assert txs[..i + 1][i] == txs[i] && rs[..i + 1][i] == rs[i];
  }

  class Producer {
    const cfg: Pipeline.SysConfig
    const mempool: LanedMempool.LanedMempool
    const state: StateManager.Manager
    const feeModel: FeeModel.DynamicFeeModel
    const sizer: AdaptiveSizer.AdaptiveBlockSizer?
    const receiptStore: Receipts.ReceiptStore?
    const sha: Receipts.Digest
    const keccak: Receipts.Digest

    ghost predicate Valid()
      reads this, mempool, mempool.fast, mempool.std, mempool.slow, state, state.chainDB, state.chainDB.db
    {
      && mempool.Valid() && state.Valid() && state.cfg == cfg.chain
      && (sizer != null <==> cfg.sizer.Some?)
      && (sizer != null ==> sizer.cfg == cfg.sizer.value)
    }

    ghost function View(): Pipeline.Core
      reads this, mempool, state, state.stateStore, state.chainDB, feeModel, sizer
    {
      Pipeline.Core(
        mempool.View(), state.View(), feeModel.View(),
        if sizer != null then sizer.View() else AdaptiveSizer.Size(0, 0, 0.0))
    }

    constructor (
      cfg: Pipeline.SysConfig, mempool: LanedMempool.LanedMempool, state: StateManager.Manager,
      feeModel: FeeModel.DynamicFeeModel, sizer: AdaptiveSizer.AdaptiveBlockSizer?,
      receiptStore: Receipts.ReceiptStore?, sha: Receipts.Digest, keccak: Receipts.Digest)
      requires mempool.Valid() && state.Valid() && state.cfg == cfg.chain
      requires sizer != null <==> cfg.sizer.Some?
      requires sizer != null ==> sizer.cfg == cfg.sizer.value
      ensures Valid() && this.cfg == cfg && this.mempool == mempool && this.state == state
    {
      this.cfg, this.mempool, this.state, this.feeModel := cfg, mempool, state, feeModel;
      this.sizer, this.receiptStore, this.sha, this.keccak := sizer, receiptStore, sha, keccak;
    }

    /** After an error: every transaction goes back with no sender and no score. */
    method ReturnAll(txs: seq<Tx>)
      requires mempool.Valid()
      modifies mempool`known, mempool`clock, mempool`ranks, mempool.fast, mempool.std, mempool.slow
      ensures mempool.Valid() && mempool.View() == ReAdd(old(mempool.View()), Anonymous(txs))
    {
      for i := 0 to |txs|
        invariant mempool.Valid() && mempool.View() == ReAdd(old(mempool.View()), Anonymous(txs[..i]))
      {
        assert Anonymous(txs[..i + 1])[..i] == Anonymous(txs[..i]);
        var added := mempool.Add(txs[i], NO_SENDER, 0.0);
      }
      assert txs[..|txs|] == txs;
    }

    /** After a block: the skipped ones go back as they came. */
    method ReturnSkipped(batch: seq<TxMeta>, skipped: seq<Tx>)
      requires mempool.Valid()
      modifies mempool`known, mempool`clock, mempool`ranks, mempool.fast, mempool.std, mempool.slow
      ensures mempool.Valid() && mempool.View() == ReAdd(old(mempool.View()), Returned(batch, skipped))
    {
      for i := 0 to |skipped|
        invariant mempool.Valid() && mempool.View() == ReAdd(old(mempool.View()), Returned(batch, skipped[..i]))
      {
        var tx := skipped[i];
        assert skipped[..i + 1][..i] == skipped[..i];
        var j := 0;
        while j < |batch| && batch[j].tx.hash != tx.hash
          invariant j <= |batch| && MetaOf(batch, tx.hash) == MetaOf(batch[j..], tx.hash)
        {
          j := j + 1;
        }
        ReturnedStep(old(mempool.View()), batch, skipped, i);
        if j < |batch| {
          var added := mempool.Add(tx, batch[j].sender, batch[j].tasteScore);
        }
      }
      assert skipped[..|skipped|] == skipped;
    }

    /** Receipts are stored one by one, in block order. */
    method StoreReceipts(store: Receipts.ReceiptStore, block: L2Block, pre: Hash, now: nat)
      requires |block.receipts| == |block.transactions|
      modifies store
      ensures var n := block.header.number;
              store.OfBlock(n) == old(store.OfBlock(n)) + ReceiptsOf(
                sha, keccak, block.transactions, block.receipts, n, pre, block.header.stateRoot, now)
    {
      var n, post := block.header.number, block.header.stateRoot;
      var txs, rs := block.transactions, block.receipts;
      for i := 0 to |rs|
        invariant store.OfBlock(n) == old(store.OfBlock(n)) + ReceiptsOf(sha, keccak, txs[..i], rs[..i], n, pre, post, now)
      {
        var cr := ComputeReceipts.CreateReceipt(sha, keccak, txs[i], rs[i], n, Wrap64(i), pre, post, now);
        ReceiptsSnoc(sha, keccak, txs, rs, n, pre, post, now, i);
        store.Store(cr);
      }
      assert txs[..|txs|] == txs && rs[..|rs|] == rs;
    }

    method Adjust(gasUsed: u64, gasLimit: u64)
      requires sizer != null <==> cfg.sizer.Some?
      requires sizer != null ==> sizer.cfg == cfg.sizer.value
      modifies feeModel`baseFee, feeModel`emaGasUsage, sizer
      ensures feeModel.View() == FeeModel.Adjust(old(feeModel.View()), gasUsed, gasLimit)
      ensures sizer != null ==>
                sizer.View() == AdaptiveSizer.Adjust(cfg.sizer.value, old(sizer.View()), gasUsed, gasLimit)
    {
      feeModel.AdjustAfterBlock(gasUsed, gasLimit);
      if sizer != null {
        sizer.AdjustAfterBlock(gasUsed, gasLimit);
      }
    }

    /** Executes a batch on top of the current block and commits it; `None` is the nil header on which the process ends. */
    method ExecuteBatch(batch: seq<TxMeta>, timestamp: u64, baseFee: nat, commitOk: bool, writeOk: bool)
      returns (outcome: Option<Outcome>)
      requires state.Valid() && state.cfg == cfg.chain && NoDuplicates(batch)
      modifies state`currentBlock, state`stateRoot, state.stateStore
      modifies state.chainDB`currentBlock, state.chainDB`stateRoot, state.chainDB`history, state.chainDB.db
      ensures state.Valid()
      ensures ProduceNext(cfg.chain, old(state.View()), TxsOf(batch), timestamp, baseFee, commitOk, writeOk) ==
              if outcome.None? then None else Some(Committed(state.View(), outcome.value))
      ensures outcome.None? ==> state.View() == old(state.View())
      ensures outcome.Some? && outcome.value.Produced? ==>
                |outcome.value.block.receipts| == |outcome.value.block.transactions|
    {
      hide ChainState.ExecuteAndCommitBlock, BlockHashAt, NoDuplicates, StateManager.Manager.Valid, TxsOf;
      var blockNum := Wrap64(state.currentBlock + 1);
      var parentHash := state.GetBlockHash(state.currentBlock);
      if parentHash.None? {
        return None;
      }
      ProducedAligned(cfg.chain, state.View(), batch, blockNum, timestamp, parentHash.value, baseFee, commitOk, writeOk);
      var o := state.ExecuteAndCommitBlock(
        TxsOf(batch), blockNum, timestamp, parentHash.value, baseFee, commitOk, writeOk);
      outcome := Some(o);
    }

    /** The limits in force: the sizer's if there is one, the configured ones otherwise. */
    method Limits() returns (maxTx: int, gasLimit: u64)
      requires sizer != null <==> cfg.sizer.Some?
      ensures maxTx == Pipeline.MaxTx(cfg, View()) && gasLimit == Pipeline.GasLimit(cfg, View())
    {
      maxTx, gasLimit := cfg.maxTx, cfg.maxGas;
      if sizer != null {
        gasLimit := sizer.currentGasLimit;
        maxTx := sizer.currentMaxTx;
      }
    }

    method PopNext() returns (batch: seq<TxMeta>, gasLimit: u64)
      requires Valid()
      modifies mempool`known, mempool`ranks, mempool.fast, mempool.std, mempool.slow
      ensures Valid() && Pipeline.PopStep(cfg, old(View())) == (View(), Pipeline.Popped(batch, gasLimit))
      ensures NoDuplicates(batch) && feeModel.View() == old(feeModel.View())
    {
      hide PopBatch, PoolOk, LanedMempool.LanedMempool.Valid, StateManager.Manager.Valid;
      var maxTx;
      maxTx, gasLimit := Limits();
      mempool.Agrees();
      ghost var before := mempool.View();
      batch := mempool.PopBatchLaned(maxTx, gasLimit);
      var s := PopConserves(before, maxTx, gasLimit);
    }

    /** Puts back what the outcome says: the skipped ones as they came, or after an error everything. */
    method PutBack(batch: seq<TxMeta>, gasLimit: u64, outcome: Outcome)
      requires mempool.Valid()
      modifies mempool`known, mempool`clock, mempool`ranks, mempool.fast, mempool.std, mempool.slow
      ensures mempool.Valid()
      ensures mempool.View() == ReAdd(old(mempool.View()), Pipeline.FlightAfter(batch, gasLimit, outcome).queue)
    {
      match outcome
      case Failed => ReturnAll(TxsOf(batch));
      case Produced(_, skipped) => ReturnSkipped(batch, skipped);
    }

    /** The first half: pop a batch, execute and commit it. */
    method BuildBlock(timestamp: u64, commitOk: bool, writeOk: bool)
      returns (batch: seq<TxMeta>, gasLimit: u64, outcome: Option<Outcome>, ghost popped: Pipeline.Core)
      requires Valid()
      modifies mempool`known, mempool`ranks, mempool.fast, mempool.std, mempool.slow
      modifies state`currentBlock, state`stateRoot, state.stateStore
      modifies state.chainDB`currentBlock, state.chainDB`stateRoot, state.chainDB`history, state.chainDB.db
      ensures Valid()
      ensures Pipeline.PopStep(cfg, old(View())) == (popped, Pipeline.Popped(batch, gasLimit))
      ensures Pipeline.CommitStep(cfg, popped, batch, gasLimit, timestamp, commitOk, writeOk) ==
              if outcome.None? then None
              else Some((View(), Pipeline.FlightAfter(batch, gasLimit, outcome.value), outcome.value))
      ensures outcome.Some? && outcome.value.Produced? ==>
                |outcome.value.block.receipts| == |outcome.value.block.transactions|
    {
      hide Pipeline.PopStep, ProduceNext, Pipeline.FlightAfter, LanedMempool.LanedMempool.Valid,
        StateManager.Manager.Valid;
      batch, gasLimit := PopNext();
      popped := View();
      outcome := ExecuteBatch(batch, timestamp, feeModel.baseFee, commitOk, writeOk);
    }

    /** The second half: put back, adjust the controllers. */
    method SettleBlock(batch: seq<TxMeta>, gasLimit: u64, outcome: Outcome)
      requires Valid()
      modifies mempool`known, mempool`clock, mempool`ranks, mempool.fast, mempool.std, mempool.slow
      modifies feeModel`baseFee, feeModel`emaGasUsage, sizer
      ensures Valid()
      ensures var back, before := Pipeline.FlightAfter(batch, gasLimit, outcome), old(View());
              View() == Pipeline.FinishStep(cfg, before.(pool := ReAdd(before.pool, back.queue)), back.usage)
    {
      hide ReAdd, Pipeline.FinishStep, Anonymous, Returned, LanedMempool.LanedMempool.Valid,
        LanedMempool.LanedMempool.View, StateManager.Manager.Valid;
      PutBack(batch, gasLimit, outcome);
      ghost var back := View();
      if outcome.Produced? {
        Adjust(outcome.block.header.gasUsed, gasLimit);
      }
      FinishIs(cfg, back, View(), Pipeline.FlightAfter(batch, gasLimit, outcome).usage);
    }

    /** Compute receipts are made for blocks that hold transactions. */
    method StoreIfProduced(outcome: Outcome, preStateRoot: Hash, now: nat)
      requires outcome.Produced? ==> |outcome.block.receipts| == |outcome.block.transactions|
      modifies receiptStore
      ensures receiptStore != null && outcome.Produced? ==>
                var b := outcome.block;
                receiptStore.OfBlock(b.header.number) == old(receiptStore.OfBlock(b.header.number)) + ReceiptsOf(
                  sha, keccak, b.transactions, b.receipts, b.header.number, preStateRoot, b.header.stateRoot, now)
    {
      if outcome.Produced? && receiptStore != null && |outcome.block.transactions| > 0 {
        StoreReceipts(receiptStore, outcome.block, preStateRoot, now);
      }
    }

    /** Both halves: one step of the pipeline, with nothing in between. */
    method BuildAndSettle(timestamp: u64, commitOk: bool, writeOk: bool) returns (outcome: Option<Outcome>)
      requires Valid()
      modifies mempool`known, mempool`clock, mempool`ranks, mempool.fast, mempool.std, mempool.slow
      modifies state`currentBlock, state`stateRoot, state.stateStore
      modifies state.chainDB`currentBlock, state.chainDB`stateRoot, state.chainDB`history, state.chainDB.db
      modifies feeModel`baseFee, feeModel`emaGasUsage, sizer
      ensures Valid()
      ensures Pipeline.ProduceBlock(cfg, old(View()), timestamp, commitOk, writeOk) ==
              if outcome.None? then None else Some((View(), outcome.value))
      ensures outcome.Some? && outcome.value.Produced? ==>
                |outcome.value.block.receipts| == |outcome.value.block.transactions|
    {
      hide Pipeline.PopStep, Pipeline.CommitStep, Pipeline.FinishStep, ReAdd, PopBatch, Execute, PoolOk;
      var batch, gasLimit;
      ghost var popped;
      batch, gasLimit, outcome, popped := BuildBlock(timestamp, commitOk, writeOk);
      if outcome.Some? {
        SettleBlock(batch, gasLimit, outcome.value);
      }
    }

    /**
      * One block: pop, execute and commit, put back, adjust the controllers, store the
      * compute receipts.  `None` is the nil header on which the process ends.
      */
    method ProduceBlock(timestamp: u64, commitOk: bool, writeOk: bool, now: nat) returns (outcome: Option<Outcome>)
      requires Valid()
      modifies mempool`known, mempool`clock, mempool`ranks, mempool.fast, mempool.std, mempool.slow
      modifies state`currentBlock, state`stateRoot, state.stateStore
      modifies state.chainDB`currentBlock, state.chainDB`stateRoot, state.chainDB`history, state.chainDB.db
      modifies feeModel`baseFee, feeModel`emaGasUsage, sizer, receiptStore
      ensures Valid()
      ensures Pipeline.ProduceBlock(cfg, old(View()), timestamp, commitOk, writeOk) ==
              if outcome.None? then None else Some((View(), outcome.value))
      ensures receiptStore != null && outcome.Some? && outcome.value.Produced? ==>
                var b := outcome.value.block;
                && |b.receipts| == |b.transactions|
                && receiptStore.OfBlock(b.header.number) == old(receiptStore.OfBlock(b.header.number)) + ReceiptsOf(
                     sha, keccak, b.transactions, b.receipts, b.header.number, old(state.stateRoot), b.header.stateRoot, now)
    {
      hide Pipeline.ProduceBlock, PoolOk, ReceiptsOf, LanedMempool.LanedMempool.Valid, StateManager.Manager.Valid;
      var preStateRoot := state.stateRoot;
      outcome := BuildAndSettle(timestamp, commitOk, writeOk);
      if outcome.Some? {
        StoreIfProduced(outcome.value, preStateRoot, now);
      }
    }
  }

  lemma FinishIs(c: Pipeline.SysConfig, core: Pipeline.Core, done: Pipeline.Core, usage: Option<FeeModel.Usage>)
    requires usage.None? ==> done == core
    requires usage.Some? ==>
               && done.pool == core.pool && done.node == core.node
               && done.fee == FeeModel.Adjust(core.fee, usage.value.gasUsed, usage.value.gasLimit)
               && done.size == (if c.sizer.Some? then
                    AdaptiveSizer.Adjust(c.sizer.value, core.size, usage.value.gasUsed, usage.value.gasLimit)
                    else core.size)
    ensures Pipeline.FinishStep(c, core, usage) == done
  {}

  lemma ReturnedStep(p: Pool, batch: seq<TxMeta>, skipped: seq<Tx>, i: nat)
    requires i < |skipped|
    ensures var found := MetaOf(batch, skipped[i].hash);
            ReAdd(p, Returned(batch, skipped[..i + 1])) ==
            if found.Some? then Add(ReAdd(p, Returned(batch, skipped[..i])), skipped[i], found.value.sender, found.value.tasteScore)
            else ReAdd(p, Returned(batch, skipped[..i]))
  {
    assert skipped[..i + 1][..i] == skipped[..i];
    var front := Returned(batch, skipped[..i]);
    var found := MetaOf(batch, skipped[i].hash);
    if found.Some? {
      var e := Entry(skipped[i], found.value.sender, found.value.tasteScore);
      assert (front + [e])[..|front|] == front;
    } else {
      assert front + [] == front;
    }
  }
}
