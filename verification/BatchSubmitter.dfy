/** The batcher itself, refining Batching. */
module BatchSubmitter {
  import opened Common
  import opened ChainStore
  import opened ChainStoreProofs
  import ChainState
  import opened Batching
  import StateManager

  function Joined(done: seq<BlockData>, rest: Lookup<seq<BlockData>>): Lookup<seq<BlockData>> {
    if rest.Found? then Found(done + rest.value) else rest
  }

  lemma JoinedStep(ws: seq<Write>, done: seq<BlockData>, first: nat, last: nat)
    requires first <= last < U64
    ensures Joined(done, Collected(ws, first, last)) ==
            match BlockUnder(ws, first)
            case Missing => Missing
            case Corrupt => Corrupt
            case Found(b) => Joined(done + [DataOf(b)], Collected(ws, first + 1, last))
  {
    var b, rest := BlockUnder(ws, first), Collected(ws, first + 1, last);
    if b.Found? && rest.Found? {
      assert done + ([DataOf(b.value)] + rest.value) == (done + [DataOf(b.value)]) + rest.value;
    }
  }

  lemma JoinedEnds(ws: seq<Write>, done: seq<BlockData>, first: nat, last: nat)
    requires last < U64
    ensures first > last ==> Joined(done, Collected(ws, first, last)) == Found(done)
    ensures Joined([], Collected(ws, first, last)) == Collected(ws, first, last)
  {
    assert done + [] == done;
    var rest := Collected(ws, first, last);
    if rest.Found? {
      assert [] + rest.value == rest.value;
    }
  }

  class BatchSubmitter {
    const state: StateManager.Manager
    var lastBatchBlock: u64
    var batchIndex: u64
    var pendingBatches: map<Hash, Batch>
    ghost var sent: seq<Sent>
    ghost var confirmed: set<Batch>

    ghost function View(): Batcher
      reads this
    {
      Batcher(lastBatchBlock, batchIndex, pendingBatches, sent, confirmed)
    }

    constructor (state: StateManager.Manager)
      ensures this.state == state && View() == NEW_BATCHER
    {
      this.state := state;
      lastBatchBlock, batchIndex, pendingBatches := 0, 0, map[];
      sent, confirmed := [], {};
    }

    /** Reads the blocks one by one; gives up at the first missing one, reads a nil header in the first damaged one. */
    method BuildBatchFrame(startBlock: u64, endBlock: u64) returns (frame: Lookup<BatchFrame>)
      requires state.Valid() && startBlock <= endBlock
      ensures frame == match Collected(state.View().history, startBlock, endBlock)
                       case Missing => Missing
                       case Corrupt => Corrupt
                       case Found(data) => Found(BatchFrame(startBlock, endBlock, data))
    {
      hide Collected, BlockUnder, DataOf, Joined;
      ghost var ws := state.View().history;
      var blocks: seq<BlockData> := [];
      JoinedEnds(ws, [], startBlock, endBlock);
      var num: nat := startBlock;
      while num <= endBlock
        invariant startBlock <= num <= endBlock + 1
        invariant Collected(ws, startBlock, endBlock) == Joined(blocks, Collected(ws, num, endBlock))
      {
        JoinedStep(ws, blocks, num, endBlock);
        var block := state.GetBlock(num);
        if block.Missing? {
          return Missing;
        }
        if block.Corrupt? {
          return Corrupt;
        }
        blocks := blocks + [DataOf(block.value)];
        num := num + 1;
      }
      JoinedEnds(ws, blocks, num, endBlock);
      frame := Found(BatchFrame(startBlock, endBlock, blocks));
    }

    method NextBatchFrame() returns (frame: Lookup<BatchFrame>)
      requires state.Valid()
      ensures frame == NextFrame(View(), state.View())
    {
      hide Collected;
      var currentBlock := state.currentBlock;
      if currentBlock <= lastBatchBlock {
        return Missing;
      }
      frame := BuildBatchFrame(lastBatchBlock + 1, currentBlock);
    }

    /** `alive` is false if the process ended on a nil header. */
    method SubmitBatch(s: Submission) returns (alive: bool)
      requires state.Valid()
      modifies this, state`l1Origin, state.chainDB`history, state.chainDB.db
      ensures state.Valid()
      ensures Batching.SubmitBatch(old(View()), old(state.View()), s) ==
              if alive then Some((View(), state.View())) else None
    {
      hide NextFrame, RecordOf, Advance;
      var frame := NextBatchFrame();
      if frame.Missing? {
        return true;
      }
      if frame.Corrupt? {
        return false;
      }
      if s.l1Block.Some? {
        state.SetL1Origin(L1Origin(s.l1Block.value.0, s.l1Block.value.1, s.now), s.originOk);
      }
      if s.sent.None? {
        return true;
      }
      Record(frame.value, s.sent.value, s.size, s.batchOk);
      alive := true;
    }

    method Record(f: BatchFrame, txHash: Hash, size: nat, batchOk: bool)
      requires state.Valid()
      modifies this, state.chainDB`history, state.chainDB.db
      ensures state.Valid()
      ensures View() == Advance(old(View()), f, txHash, size)
      ensures state.View() == ChainState.AddBatch(old(state.View()), RecordOf(old(View()), f, txHash, size), batchOk)
    {
      var batch := Batch(
        Wrap64(batchIndex + 1), f.startBlock, f.endBlock, f.endBlock - f.startBlock + 1, txHash, size, Submitted);
      assert batch == RecordOf(View(), f, txHash, size);
      state.AddBatch(batch, batchOk);
      pendingBatches := pendingBatches[txHash := batch];
      lastBatchBlock := f.endBlock;
      batchIndex := batch.index;
      sent := sent + [Sent(batch, f)];
    }

    /** Polls the pending hashes in any order. */
    method CheckConfirmations(answers: Answers)
      modifies this`pendingBatches, this`confirmed
      ensures View() == Confirm(old(View()), answers)
    {
      ghost var all := pendingBatches;
      var left := pendingBatches.Keys;
      while left != {}
        invariant left <= all.Keys
        invariant forall h :: h in pendingBatches <==> h in all && (h in left || answers(h) != Some(true))
        invariant forall h :: h in pendingBatches ==> pendingBatches[h] == all[h]
        invariant confirmed == old(confirmed) + (set h | h in all && h !in left && answers(h) == Some(true) :: all[h])
        decreases |left|
      {
        var h :| h in left;
        left := left - {h};
        if answers(h) == Some(true) {
          confirmed := confirmed + {all[h]};
          pendingBatches := pendingBatches - {h};
        }
      }
      assert pendingBatches == Unconfirmed(all, answers);
    }
  }
}
