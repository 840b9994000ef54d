/** What the database says of the batches sent: one record each, in order, found again under its index. */
module BatchRecords {
  import opened Common
  import opened ChainKeys
  import opened ChainStore
  import opened ChainStoreProofs
  import opened Ledger
  import opened ChainState
  import opened ChainProofs
  import opened Batching
  import opened LanePool
  import opened Producing
  import opened Pipeline
  import opened PipelineProofs

  function BatchesOf(ws: seq<Write>): seq<Batch> {
    if ws == [] then []
    else if ws[|ws| - 1].PutBatch? then BatchesOf(ws[..|ws| - 1]) + [ws[|ws| - 1].batch]
    else BatchesOf(ws[..|ws| - 1])
  }

  lemma BatchesSnoc(ws: seq<Write>, w: Write)
    ensures BatchesOf(ws + [w]) == BatchesOf(ws) + (if w.PutBatch? then [w.batch] else [])
  {
    assert (ws + [w])[..|ws|] == ws;
  }

  // ---------- every batch sent is recorded ----------

  /** Since a, the records written are those of the batches sent, in order. */
  ghost predicate Recorded(a: Sys, z: Sys) {
    && a.batcher.sent <= z.batcher.sent
    && BatchesOf(z.core.node.history) ==
       BatchesOf(a.core.node.history) + Records(z.batcher.sent)[|a.batcher.sent|..]
  }

  lemma SendRecords(a: Sys, sys: Sys, l1TxHash: Option<Hash>, size: nat)
    requires sys.frame.Some? && Recorded(a, sys)
    ensures Recorded(a, SendOf(sys, l1TxHash, size, true))
  {
    hide RecordOf;
    if l1TxHash.Some? {
      var record := RecordOf(sys.batcher, sys.frame.value, l1TxHash.value, size);
      BatchesSnoc(sys.core.node.history, PutBatch(record));
      assert Records(SendOf(sys, l1TxHash, size, true).batcher.sent) == Records(sys.batcher.sent) + [record];
    }
  }

  /** A production writes a block or nothing. */
  lemma CommitWrites(c: SysConfig, sys: Sys, timestamp: u64, commitOk: bool, writeOk: bool)
    requires sys.flight.Popped?
    ensures var z := CommitOf(c, sys, timestamp, commitOk, writeOk);
            z.batcher == sys.batcher && BatchesOf(z.core.node.history) == BatchesOf(sys.core.node.history)
  {
    hide BatchesOf, Open, Save, Assemble, BlockHashAt;
    var txs, fee := LaneConservation.TxsOf(sys.flight.batch), sys.core.fee.baseFee;
    var r := ProduceNext(c.chain, sys.core.node, txs, timestamp, fee, commitOk, writeOk);
    CommitForm(c, sys, timestamp, commitOk, writeOk, r);
    if r.Some? && r.value.outcome.Produced? {
      BatchesSnoc(sys.core.node.history, PutBlock(r.value.outcome.block));
    }
  }

  lemma StepRecords(c: SysConfig, a: Sys, y: Audited, e: Event)
    requires Recorded(a, y.sys) && (e.Send? ==> e.writeOk)
    ensures Recorded(a, Step(c, y, e).sys)
  {
    hide Recorded, PopStep, CommitOf, FinishStep, CollectOf, SendOf, AddEntry, AddOutcome, BatchesOf;
    if !y.sys.halted {
      match e
      case Commit(timestamp, commitOk, writeOk) =>
        if y.sys.flight.Popped? {
          CommitWrites(c, y.sys, timestamp, commitOk, writeOk);
          SameRecorded(a, y.sys, Step(c, y, e).sys);
        }
      case Observe(origin, _) =>
        BatchesSnoc(y.sys.core.node.history, PutL1Origin(origin));
        SameRecorded(a, y.sys, Step(c, y, e).sys);
      case Send(l1TxHash, size, _) => if y.sys.frame.Some? { SendRecords(a, y.sys, l1TxHash, size); }
      case _ =>
        OtherWrites(c, y, e);
        SameRecorded(a, y.sys, Step(c, y, e).sys);
    }
  }

  lemma SameRecorded(a: Sys, y: Sys, z: Sys)
    requires Recorded(a, y) && z.batcher.sent == y.batcher.sent
    requires BatchesOf(z.core.node.history) == BatchesOf(y.core.node.history)
    ensures Recorded(a, z)
  {}

  /** The other steps write nothing and send nothing. */
  lemma OtherWrites(c: SysConfig, y: Audited, e: Event)
    requires !e.Commit? && !e.Observe? && !e.Send?
    ensures Step(c, y, e).sys.core.node == y.sys.core.node && Step(c, y, e).sys.batcher.sent == y.sys.batcher.sent
  {
    hide PopBatch, NextFrame, AddEntry, AddOutcome;
  }

  /** Over every interleaving in which batch records get written: one for each batch sent, in order. */
  lemma {:induction false} RunRecords(c: SysConfig, a: Audited, es: seq<Event>)
    requires forall e :: e in es && e.Send? ==> e.writeOk
    ensures Recorded(a.sys, Run(c, a, es).sys)
  {
    hide Recorded, Step;
    if es == [] {
      NothingYet(a.sys);
    } else {
      RunRecords(c, a, es[..|es| - 1]);
      StepRecords(c, a.sys, Run(c, a, es[..|es| - 1]), es[|es| - 1]);
    }
  }

  lemma NothingYet(a: Sys)
    ensures Recorded(a, a)
  {}

  // ---------- and found again ----------

  /** The last batch with an index. */
  function NewestOf(bs: seq<Batch>, i: u64): Lookup<Batch> {
    if bs == [] then Missing
    else if bs[|bs| - 1].index == i then Found(bs[|bs| - 1])
    else NewestOf(bs[..|bs| - 1], i)
  }

  /** Under an index is the last record with it, or a block that overwrote it. */
  lemma {:induction false} BatchUnderNewest(ws: seq<Write>, i: u64)
    ensures BatchUnder(ws, i) == Corrupt || BatchUnder(ws, i) == NewestOf(BatchesOf(ws), i)
  {
    hide Clash;
    if ws != [] {
      var front := ws[..|ws| - 1];
      BatchUnderNewest(front, i);
      if ws[|ws| - 1].PutBatch? {
        assert BatchesOf(ws)[..|BatchesOf(ws)| - 1] == BatchesOf(front);
      }
    }
  }

  /** Overwriting one takes 29,697 blocks. */
  lemma {:induction false} NoBatchOverwritten(ws: seq<Write>, i: u64)
    requires i >= 1 && Numbered(BlocksOf(ws)) && |BlocksOf(ws)| < 29697
    ensures BatchUnder(ws, i) != Corrupt
  {
    hide Clash;
    if ws != [] {
      var front, blocks := ws[..|ws| - 1], BlocksOf(ws);
      NumberedPrefix(BlocksOf(front), blocks);
      NoBatchOverwritten(front, i);
      if ws[|ws| - 1].PutBlock? {
        assert blocks[|blocks| - 1].header.number == |blocks|;
        FirstClash(i, ws[|ws| - 1].block.header.number);
      }
    }
  }

  lemma NumberedPrefix(front: seq<L2Block>, blocks: seq<L2Block>)
    requires front <= blocks && Numbered(blocks)
    ensures Numbered(front)
  {
    assert forall k: int {:trigger front[k]} :: 0 <= k < |front| ==> front[k] == blocks[k];
  }

  lemma {:induction false} NewestAt(bs: seq<Batch>, k: nat)
    requires k < |bs| && forall j :: k < j < |bs| ==> bs[j].index != bs[k].index
    ensures NewestOf(bs, bs[k].index) == Found(bs[k])
    decreases |bs|
  {
    if k < |bs| - 1 {
      NewestAt(bs[..|bs| - 1], k);
    }
  }

  lemma {:induction false} LatestIsLast(ws: seq<Write>)
    ensures var bs := BatchesOf(ws);
            LastBatch(ws) == if bs == [] then None else Some(bs[|bs| - 1])
  {
    if ws != [] {
      LatestIsLast(ws[..|ws| - 1]);
    }
  }

  lemma RecordFound(ws: seq<Write>, prior: seq<Batch>, sent: seq<Sent>, from: nat, k: nat)
    requires from <= k < |sent| && forall j :: 0 <= j < |sent| ==> sent[j].batch.index == j + 1
    requires BatchesOf(ws) == prior + Records(sent)[from..]
    ensures NewestOf(BatchesOf(ws), sent[k].batch.index) == Found(sent[k].batch)
    ensures k == |sent| - 1 ==> LastBatch(ws) == Some(sent[k].batch)
  {
    var bs, p := BatchesOf(ws), |prior| + k - from;
    forall j | p <= j < |bs|
      ensures bs[j] == sent[from + j - |prior|].batch
    {}
    NewestAt(bs, p);
    LatestIsLast(ws);
  }

  /** The k-th batch of the whole run is read back under its index, and the last one as the latest. */
  lemma RecordsReadBack(c: SysConfig, base: World, a: Audited, es: seq<Event>, k: nat)
    requires SysOk(c, base, a) && RunOk(c, a, es)
    requires forall e :: e in es && e.Send? ==> e.writeOk
    requires |a.sys.batcher.sent| <= k < |Run(c, a, es).sys.batcher.sent|
    ensures var z := Run(c, a, es).sys;
            var disk, batch := After(z.core.node.history), z.batcher.sent[k].batch;
            && batch.index == k + 1 && batch.status == Submitted
            && (ReadBatch(disk, batch.index) == Found(batch) || ReadBatch(disk, batch.index) == Corrupt)
            && (|Blocks(z)| < 29697 ==> ReadBatch(disk, batch.index) == Found(batch))
            && (k == |z.batcher.sent| - 1 ==> ReadLatestBatch(disk) == ReadBatch(disk, batch.index))
  {
    hide SysOk, Run, ReadBatch, ReadLatestBatch, After, BatchesOf, BlocksOf, LastBatch, NewestOf, BatchUnder, Numbered;
    RunKeepsOk(c, base, a, es);
    RunRecords(c, a, es);
    var z := Run(c, a, es);
    SentIndices(c, base, z);
    var ws, sent := z.sys.core.node.history, z.sys.batcher.sent;
    RecordFound(ws, BatchesOf(a.sys.core.node.history), sent, |a.sys.batcher.sent|, k);
    BatchUnderNewest(ws, sent[k].batch.index);
    if |BlocksOf(ws)| < 29697 {
      NoBatchOverwritten(ws, sent[k].batch.index);
    }
    ReadBatchExact(ws, sent[k].batch.index);
    ReadLatestBatchExact(ws);
  }

  lemma SentIndices(c: SysConfig, base: World, z: Audited)
    requires SysOk(c, base, z)
    ensures forall j :: 0 <= j < |z.sys.batcher.sent| ==>
              z.sys.batcher.sent[j].batch.index == j + 1 && z.sys.batcher.sent[j].batch.status == Submitted
    ensures Numbered(BlocksOf(z.sys.core.node.history))
  {
    hide PoolOk, Balanced, ChainOk, TipOk;
    ChainNumbered(c.chain, base, BlocksOf(z.sys.core.node.history));
    forall j | 0 <= j < |z.sys.batcher.sent|
      ensures z.sys.batcher.sent[j].batch.index == j + 1 && z.sys.batcher.sent[j].batch.status == Submitted
    {
      assert SentOk(z.sys.batcher.sent, j);
    }
  }
}
