/** What holds in every state an interleaved run reaches, read off the invariant. */
module PipelineTheorems {
  import opened Common
  import opened Transactions
  import opened Ledger
  import opened Execution
  import opened LanePool
  import opened LaneConservation
  import LaneOrder
  import opened Producing
  import FeeModel
  import AdaptiveSizer
  import opened ChainStore
  import opened ChainState
  import opened ChainProofs
  import opened ChainLaws
  import opened Batching
  import opened Pipeline
  import opened PipelineProofs
  import opened PipelineControls

  lemma ChainAll(p: Tx -> bool, a: Audited)
    requires Balanced(a) && All(p, a.accepted)
    ensures forall tx :: tx in ChainLaws.TxsIn(Blocks(a.sys)) ==> p(tx)
  {
    forall tx | tx in ChainLaws.TxsIn(Blocks(a.sys))
      ensures p(tx)
    {
      InBlocks(p, a, tx);
    }
  }

  /**
    * At most once, over the whole run: no sender's nonce is executed twice, whatever is
    * re-submitted and whatever gas it offers.
    */
  lemma RunExecutesOnce(c: SysConfig, base: World, a: Audited, es: seq<Event>, i: nat, j: nat)
    requires WellBehaved(c.chain.machine) && WorldOk(c.chain.machine, base)
    requires SysOk(c, base, a) && RunOk(c, a, es)
    requires All((tx: Tx) => KeyedAndFits(c, tx), a.accepted) && SubmitsAll((tx: Tx) => KeyedAndFits(c, tx), es)
    requires var txs := ChainLaws.TxsIn(Blocks(Run(c, a, es).sys));
             i < j < |txs| && txs[i].from == txs[j].from && txs[i].from.Some?
    ensures var txs := ChainLaws.TxsIn(Blocks(Run(c, a, es).sys));
            txs[i].nonce < txs[j].nonce
  {
    hide WellBehaved, ChainOk, PoolOk, BatchingOk, Run;
    RunKeepsOk(c, base, a, es);
    AcceptedAll((tx: Tx) => KeyedAndFits(c, tx), c, a, es);
    var z := Run(c, a, es);
    ChainAll((tx: Tx) => KeyedAndFits(c, tx), z);
    ExecutedAtMostOnce(c.chain, base, Blocks(z.sys), i, j);
  }

  /**
    * Value is conserved over the whole run: with a well-behaved EVM no money is created, and
    * if it burns nothing, what is missing is what the commits deleted with self-destructed
    * accounts.
    */
  lemma RunConserves(c: SysConfig, base: World, a: Audited, es: seq<Event>)
    requires WellBehaved(c.chain.machine) && WorldOk(c.chain.machine, base)
    requires SysOk(c, base, a) && RunOk(c, a, es)
    requires All((tx: Tx) => Keyed(c, tx), a.accepted) && SubmitsAll((tx: Tx) => Keyed(c, tx), es)
    ensures var blocks := Blocks(Run(c, a, es).sys);
            var total, deleted := Total(Replay(c.chain.machine, base, blocks)), DeletedIn(c.chain.machine, base, blocks);
            && deleted >= 0 && total + deleted <= Total(base)
            && (BurnsNothing(c.chain.machine) ==> total + deleted == Total(base))
  {
    hide WellBehaved, ChainOk, PoolOk, BatchingOk, Run;
    RunKeepsOk(c, base, a, es);
    AcceptedAll((tx: Tx) => Keyed(c, tx), c, a, es);
    var z := Run(c, a, es);
    BlocksKeyed(c, z);
    ChainConserves(c.chain, base, Blocks(z.sys));
  }

  /** Every block of the run accounts for its gas: prefix sums of its receipts, within 30M. */
  lemma RunGas(c: SysConfig, base: World, a: Audited, es: seq<Event>, k: nat)
    requires WellBehaved(c.chain.machine) && WorldOk(c.chain.machine, base)
    requires SysOk(c, base, a) && RunOk(c, a, es) && k < |Blocks(Run(c, a, es).sys)|
    requires All((tx: Tx) => KeyedAndModest(c, tx), a.accepted) && SubmitsAll((tx: Tx) => KeyedAndModest(c, tx), es)
    ensures GasOk(Blocks(Run(c, a, es).sys)[k])
  {
    hide WellBehaved, ChainOk, PoolOk, BatchingOk, GasOk, Run;
    RunKeepsOk(c, base, a, es);
    AcceptedAll((tx: Tx) => KeyedAndModest(c, tx), c, a, es);
    var z := Run(c, a, es);
    ChainAll((tx: Tx) => KeyedAndModest(c, tx), z);
    StoredBlockGas(c.chain, base, Blocks(z.sys), k);
  }

  /** Both controllers stay in their bounds over the whole run. */
  lemma RunControls(c: SysConfig, base: World, a: Audited, es: seq<Event>)
    requires SysConfigOk(c) && WorldOk(c.chain.machine, base)
    requires SysOk(c, base, a) && RunOk(c, a, es) && Controlled(c, a)
    requires All((tx: Tx) => KeyedAndModest(c, tx), a.accepted) && SubmitsAll((tx: Tx) => KeyedAndModest(c, tx), es)
    ensures var core := Run(c, a, es).sys.core;
            && FeeModel.MIN_FEE <= core.fee.baseFee <= FeeModel.MAX_FEE
            && 0.0 <= core.fee.ema <= 1.0
            && (c.sizer.Some? ==> AdaptiveSizer.InBounds(c.sizer.value, core.size))
  {
    hide SysConfigOk, SysOk, Run;
    RunControlled(c, base, a, es);
  }

  /**
    * Over the whole run the frames sent are, concatenated, exactly blocks 1 to the last
    * batched one, in intervals that follow each other and carry indices 1, 2, 3, ...
    */
  lemma RunBatches(c: SysConfig, base: World, a: Audited, es: seq<Event>, k: nat)
    requires SysOk(c, base, a) && RunOk(c, a, es)
    ensures var z := Run(c, a, es).sys;
            var b, sent := z.batcher, z.batcher.sent;
            && b.lastBatchBlock <= |Blocks(z)|
            && FramesConcat(sent) == DataOfAll(Blocks(z)[..b.lastBatchBlock])
            && (k < |sent| ==>
                  && sent[k].batch.index == k + 1
                  && sent[k].frame.startBlock == (if k == 0 then 1 else sent[k - 1].frame.endBlock + 1)
                  && sent[k].frame.startBlock <= sent[k].frame.endBlock <= b.lastBatchBlock)
  {
    hide ChainSound, Balanced, Run;
    RunKeepsOk(c, base, a, es);
    var b := Run(c, a, es).sys.batcher;
    if k < |b.sent| {
      EndsWithinLast(b, Blocks(Run(c, a, es).sys), k);
      assert SentOk(b.sent, k);
    }
  }

  lemma {:induction false} EndsWithinLast(b: Batcher, blocks: seq<L2Block>, k: nat)
    requires BatchesOk(b, blocks) && k < |b.sent|
    ensures b.sent[k].frame.endBlock <= b.lastBatchBlock
    decreases |b.sent| - k
  {
    if k + 1 < |b.sent| {
      assert SentOk(b.sent, k + 1);
      EndsWithinLast(b, blocks, k + 1);
    }
  }

  // ---------- confirmation tracking ----------

  /** L1 never gives a hash that is still pending. */
  predicate FreshHash(a: Audited, e: Event) {
    e.Send? && e.l1TxHash.Some? ==> e.l1TxHash.value !in a.sys.batcher.pending
  }

  ghost predicate RunFresh(c: SysConfig, a: Audited, es: seq<Event>) {
    es != [] ==>
      RunFresh(c, a, es[..|es| - 1]) && FreshHash(Run(c, a, es[..|es| - 1]), es[|es| - 1])
  }

  lemma StepTracks(c: SysConfig, base: World, a: Audited, e: Event)
    requires SysOk(c, base, a) && EventOk(c, a, e) && FreshHash(a, e) && Tracked(a.sys.batcher)
    ensures Tracked(Step(c, a, e).sys.batcher)
  {
    hide Tracked, ChainSound, Balanced, PopStep, CommitStep, FinishStep, NextFrame;
    match e
    case Send(l1TxHash, size, _) =>
      if !a.sys.halted && a.sys.frame.Some? && l1TxHash.Some? {
        AdvanceTracksExactly(a.sys.batcher, a.sys.frame.value, Blocks(a.sys), l1TxHash.value, size);
      }
    case Poll(answers) =>
      if !a.sys.halted && a.sys.frame.None? {
        ConfirmKeeps(a.sys.batcher, Blocks(a.sys), answers);
      }
    case _ =>
  }

  /** As long as L1's hashes do not repeat among pending batches, each batch sent is pending or confirmed, never both. */
  lemma {:induction false} RunTracks(c: SysConfig, base: World, a: Audited, es: seq<Event>)
    requires SysOk(c, base, a) && RunOk(c, a, es) && RunFresh(c, a, es)
    requires Tracked(a.sys.batcher)
    ensures Tracked(Run(c, a, es).sys.batcher)
  {
    hide SysOk, Tracked;
    if es != [] {
      var front := es[..|es| - 1];
      RunTracks(c, base, a, front);
      RunKeepsOk(c, base, a, front);
      StepTracks(c, base, Run(c, a, front), es[|es| - 1]);
    }
  }

  /** No step takes a confirmation back. */
  lemma StepConfirmedGrows(c: SysConfig, a: Audited, e: Event)
    ensures a.sys.batcher.confirmed <= Step(c, a, e).sys.batcher.confirmed
  {
    hide PopStep, CommitStep, FinishStep, NextFrame, RecordOf, AddBatch, SetL1Origin, AddOutcome;
  }

  lemma {:induction false} RunConfirmedGrows(c: SysConfig, a: Audited, es: seq<Event>)
    ensures a.sys.batcher.confirmed <= Run(c, a, es).sys.batcher.confirmed
  {
    hide Step;
    if es != [] {
      RunConfirmedGrows(c, a, es[..|es| - 1]);
      StepConfirmedGrows(c, Run(c, a, es[..|es| - 1]), es[|es| - 1]);
    }
  }

  /**
    * A pending batch whose hash L1 confirms at a poll is confirmed from then on, whatever
    * happens after; one it does not confirm stays pending under its hash, after the poll.
    */
  lemma PolledStaysConfirmed(c: SysConfig, a: Audited, answers: Answers, es: seq<Event>, h: Hash)
    requires !a.sys.halted && a.sys.frame.None? && h in a.sys.batcher.pending
    ensures var polled, batch := Step(c, a, Poll(answers)), a.sys.batcher.pending[h];
            if answers(h) == Some(true) then
              batch in Run(c, polled, es).sys.batcher.confirmed && h !in polled.sys.batcher.pending
            else h in polled.sys.batcher.pending && polled.sys.batcher.pending[h] == batch
  {
    hide Run;
    RunConfirmedGrows(c, Step(c, a, Poll(answers)), es);
  }

  // ---------- the parts of the machine ----------

  /** A submission is accepted exactly if its hash is not queued and there is room, and is queued then. */
  lemma SubmitQueues(c: SysConfig, a: Audited, e: Entry)
    requires PoolOk(a.sys.core.pool) && !a.sys.halted
    ensures var p, z := a.sys.core.pool, Step(c, a, Event.Submit(e));
            var room := !LaneOrder.Queued(p, e.tx.hash) && p.queues.Size() < p.maxSize;
            && z.accepted == (if room then a.accepted + multiset{e.tx} else a.accepted)
            && (room ==> LaneOrder.Queued(z.sys.core.pool, e.tx.hash))
            && (!room ==> z == a)
  {
    hide PoolOk;
    LaneOrder.AddAnswers(a.sys.core.pool, e.tx, e.sender, e.score);
  }

  /** What a step asks of the chain, if anything. */
  function ChainEventOf(a: Audited, e: Event): Option<ChainEvent> {
    var sys := a.sys;
    if sys.halted then None
    else
      match e
      case Commit(timestamp, commitOk, writeOk) =>
        if !sys.flight.Popped? then None
        else Some(Produce(TxsOf(sys.flight.batch), timestamp, sys.core.fee.baseFee, commitOk, writeOk))
      case Observe(origin, writeOk) => if sys.frame.None? then None else Some(Origin(origin, writeOk))
      case Send(l1TxHash, size, writeOk) =>
        if sys.frame.None? || l1TxHash.None? then None
        else Some(ChainEvent.Submit(RecordOf(sys.batcher, sys.frame.value, l1TxHash.value, size), writeOk))
      case _ => None
  }

  function ChainEvents(c: SysConfig, a: Audited, es: seq<Event>): seq<ChainEvent> {
    if es == [] then []
    else
      var asked := ChainEventOf(Run(c, a, es[..|es| - 1]), es[|es| - 1]);
      ChainEvents(c, a, es[..|es| - 1]) + (if asked.Some? then [asked.value] else [])
  }

  lemma StepIsAChainStep(c: SysConfig, a: Audited, e: Event)
    ensures var asked := ChainEventOf(a, e);
            Step(c, a, e).sys.core.node ==
            if asked.Some? then Next(c.chain, a.sys.core.node, asked.value) else a.sys.core.node
  {
    hide PopBatch, NextFrame, RecordOf, AddOutcome, ProduceNext, AddBatch, SetL1Origin;
  }

  /** Whatever interleaves with it, what happens to the chain is a run of the chain, so its laws hold of the whole machine. */
  lemma {:induction false} RunIsAChainRun(c: SysConfig, a: Audited, es: seq<Event>)
    ensures Run(c, a, es).sys.core.node == RunChain(c.chain, a.sys.core.node, ChainEvents(c, a, es))
  {
    hide Step, ChainEventOf, Next;
    if es != [] {
      var front, y := ChainEvents(c, a, es[..|es| - 1]), Run(c, a, es[..|es| - 1]);
      RunIsAChainRun(c, a, es[..|es| - 1]);
      StepIsAChainStep(c, y, es[|es| - 1]);
      var asked := ChainEventOf(y, es[|es| - 1]);
      if asked.Some? {
        assert (front + [asked.value])[..|front|] == front;
      } else {
        assert front + [] == front;
      }
    }
  }
}
