/** What can be read off the frames on L1: every block's data, and by re-executing it every state. */
module Derivation {
  import opened Common
  import opened Ledger
  import opened Execution
  import opened ChainState
  import opened ChainStore
  import opened ChainProofs
  import opened Batching
  import opened Pipeline
  import opened PipelineProofs

  /** A frame's entry holds the header fields and all transactions of a block. */
  ghost predicate Carries(d: BlockData, b: L2Block) {
    && d.number == b.header.number && d.hash == b.header.hash && d.parentHash == b.header.parentHash
    && d.timestamp == b.header.timestamp && d.stateRoot == b.header.stateRoot && d.gasUsed == b.header.gasUsed
    && d.txData == b.transactions && d.txCount == b.header.txCount == |d.txData|
  }

  lemma EntryCarries(cfg: Config, base: World, b: Batcher, blocks: seq<L2Block>, k: nat)
    requires BatchesOk(b, blocks) && ChainOk(cfg, base, blocks) && k < b.lastBatchBlock
    ensures |FramesConcat(b.sent)| == b.lastBatchBlock <= |blocks|
    ensures Carries(FramesConcat(b.sent)[k], blocks[k]) && FramesConcat(b.sent)[k].number == k + 1
  {
    assert FaithfulAt(cfg, base, blocks, k) && Linked(blocks, k);
    hide DataOf, Carries, Execute, Replay;
    DataCarries(blocks[k]);
  }

  lemma DataCarries(b: L2Block)
    requires b.header.txCount == |b.transactions|
    ensures Carries(DataOf(b), b) && DataOf(b).number == b.header.number
  {}

  /** A block's context, from its entry; the base fee is the one thing the frames leave out. */
  function CtxOfEntry(d: BlockData, sequencer: Address, baseFee: nat): BlockCtx {
    BlockCtx(d.number, d.timestamp, sequencer, BLOCK_GAS, baseFee, d.parentHash)
  }

  /** Executing the entries one after the other, each on the committed state of the one before. */
  function Derive(m: Machine, sequencer: Address, base: World, ds: seq<BlockData>, fees: seq<nat>): World
    requires |fees| == |ds|
  {
    if ds == [] then base
    else
      var last := |ds| - 1;
      var before := Derive(m, sequencer, base, ds[..last], fees[..last]);
      Persisted(Execute(m, CtxOfEntry(ds[last], sequencer, fees[last]), before, ds[last].txData).world)
  }

  function FeesOf(blocks: seq<L2Block>): (fees: seq<nat>)
    ensures |fees| == |blocks|
  {
    seq(|blocks|, i requires 0 <= i < |blocks| => blocks[i].header.baseFee)
  }

  lemma {:induction false} DeriveIsReplay(cfg: Config, base: World, blocks: seq<L2Block>, ds: seq<BlockData>)
    requires ChainOk(cfg, base, blocks) && |ds| == |blocks|
    requires forall i :: 0 <= i < |ds| ==> Carries(ds[i], blocks[i])
    ensures Derive(cfg.machine, cfg.sequencer, base, ds, FeesOf(blocks)) == Replay(cfg.machine, base, blocks)
    decreases |blocks|
  {
    if blocks != [] {
      hide ChainOk, Carries, Derive, Replay;
      var last := |blocks| - 1;
      ChainPrefix(cfg, base, blocks, last);
      DeriveIsReplay(cfg, base, blocks[..last], ds[..last]);
      assert FeesOf(blocks)[..last] == FeesOf(blocks[..last]);
      ContextCarried(cfg, base, blocks, ds, last);
      DeriveLast(cfg.machine, cfg.sequencer, base, ds, FeesOf(blocks));
      ReplayLast(cfg.machine, base, blocks);
    }
  }

  lemma DeriveLast(m: Machine, sequencer: Address, base: World, ds: seq<BlockData>, fees: seq<nat>)
    requires |fees| == |ds| && ds != []
    ensures var last := |ds| - 1;
            Derive(m, sequencer, base, ds, fees) ==
            Persisted(Execute(
                        m, CtxOfEntry(ds[last], sequencer, fees[last]),
                        Derive(m, sequencer, base, ds[..last], fees[..last]), ds[last].txData).world)
  {
    hide Execute, Persisted;
  }

  lemma ReplayLast(m: Machine, base: World, blocks: seq<L2Block>)
    requires blocks != []
    ensures var last := |blocks| - 1;
            Replay(m, base, blocks) ==
            Persisted(Execute(
                        m, CtxOfHeader(blocks[last].header), Replay(m, base, blocks[..last]), blocks[last].transactions).world)
  {
    hide Execute, Persisted;
  }

  lemma ContextCarried(cfg: Config, base: World, blocks: seq<L2Block>, ds: seq<BlockData>, k: nat)
    requires ChainOk(cfg, base, blocks) && k < |ds| <= |blocks| && Carries(ds[k], blocks[k])
    ensures ds[k].txData == blocks[k].transactions
    ensures CtxOfEntry(ds[k], cfg.sequencer, FeesOf(blocks)[k]) == CtxOfHeader(blocks[k].header)
  {
    hide Execute, Replay;
    assert FaithfulAt(cfg, base, blocks, k);
  }

  lemma ChainPrefix(cfg: Config, base: World, blocks: seq<L2Block>, n: nat)
    requires ChainOk(cfg, base, blocks) && n <= |blocks|
    ensures ChainOk(cfg, base, blocks[..n])
  {
    hide Faithful;
    forall k: int
      ensures FaithfulAt(cfg, base, blocks[..n], k) && Linked(blocks[..n], k)
    {
      assert FaithfulAt(cfg, base, blocks, k) && Linked(blocks, k);
      if 0 <= k < n {
        assert blocks[..n][..k] == blocks[..k];
      }
    }
  }

  /**
    * Over the whole run the frames sent hold, in order, all data of blocks 1 to the last
    * batched one: entry k is block k + 1, with every transaction.
    */
  lemma RunFramesCarry(c: SysConfig, base: World, a: Audited, es: seq<Event>, k: nat)
    requires SysOk(c, base, a) && RunOk(c, a, es) && k < Run(c, a, es).sys.batcher.lastBatchBlock
    ensures var z := Run(c, a, es).sys;
            && |FramesConcat(z.batcher.sent)| == z.batcher.lastBatchBlock <= |Blocks(z)|
            && FramesConcat(z.batcher.sent)[k].number == k + 1
            && Carries(FramesConcat(z.batcher.sent)[k], Blocks(z)[k])
  {
    hide Balanced, Run, Carries, BatchesOk;
    RunKeepsOk(c, base, a, es);
    var z := Run(c, a, es).sys;
    EntryCarries(c.chain, base, z.batcher, Blocks(z), k);
  }

  /**
    * And they are enough to rebuild the chain: executing their entries in order from the base
    * state, with the headers' base fees, skips nothing, uses each entry's gas and reaches each
    * entry's state root.
    */
  lemma RunFramesRebuild(c: SysConfig, base: World, a: Audited, es: seq<Event>, k: nat)
    requires SysOk(c, base, a) && RunOk(c, a, es) && k < Run(c, a, es).sys.batcher.lastBatchBlock
    ensures var z := Run(c, a, es).sys;
            && k < |FramesConcat(z.batcher.sent)| <= |Blocks(z)|
            && var ds, fees, m := FramesConcat(z.batcher.sent), FeesOf(Blocks(z)), c.chain.machine;
               var before := Derive(m, c.chain.sequencer, base, ds[..k], fees[..k]);
               var run := Execute(m, CtxOfEntry(ds[k], c.chain.sequencer, fees[k]), before, ds[k].txData);
               && run.skipped == [] && run.gas == ds[k].gasUsed
               && c.chain.rootOf(Derive(m, c.chain.sequencer, base, ds[..k + 1], fees[..k + 1])) == ds[k].stateRoot
  {
    hide Balanced, Run, BatchesOk, Execute, Carries;
    RunKeepsOk(c, base, a, es);
    var z := Run(c, a, es).sys;
    var blocks, ds := Blocks(z), FramesConcat(z.batcher.sent);
    EntryCarries(c.chain, base, z.batcher, blocks, k);
    forall i | 0 <= i <= k
      ensures Carries(ds[i], blocks[i])
    {
      EntryCarries(c.chain, base, z.batcher, blocks, i);
    }
    RebuildsAt(c.chain, base, blocks, ds, k);
  }

  lemma RebuildsAt(cfg: Config, base: World, blocks: seq<L2Block>, ds: seq<BlockData>, k: nat)
    requires ChainOk(cfg, base, blocks) && k < |ds| <= |blocks|
    requires forall i :: 0 <= i <= k ==> Carries(ds[i], blocks[i])
    ensures var fees, m := FeesOf(blocks), cfg.machine;
            var before := Derive(m, cfg.sequencer, base, ds[..k], fees[..k]);
            var run := Execute(m, CtxOfEntry(ds[k], cfg.sequencer, fees[k]), before, ds[k].txData);
            && run.skipped == [] && run.gas == ds[k].gasUsed
            && cfg.rootOf(Derive(m, cfg.sequencer, base, ds[..k + 1], fees[..k + 1])) == ds[k].stateRoot
  {
    hide Execute, ChainOk;
    var fees := FeesOf(blocks);
    ChainPrefix(cfg, base, blocks, k);
    DeriveIsReplay(cfg, base, blocks[..k], ds[..k]);
    assert fees[..k] == FeesOf(blocks[..k]);
    assert fees[..k + 1][..k] == fees[..k] && ds[..k + 1][..k] == ds[..k];
    BlockAt(cfg, base, blocks, k);
  }

  lemma BlockAt(cfg: Config, base: World, blocks: seq<L2Block>, k: nat)
    requires ChainOk(cfg, base, blocks) && k < |blocks|
    ensures Faithful(cfg, Replay(cfg.machine, base, blocks[..k]), blocks[k])
  {
    assert FaithfulAt(cfg, base, blocks, k);
  }
}
