/** Batch submission as a value: what is collected from the chain, what a submission or a confirmation changes. */
module Batching {
  import opened Common
  import opened BigEndian
  import opened Transactions
  import opened Ledger
  import opened ChainStore
  import opened ChainStoreProofs
  import opened ChainState
  import opened ChainProofs

  datatype BlockData = BlockData(
    number: u64,
    hash: Hash,
    parentHash: Hash,
    timestamp: u64,
    stateRoot: Hash,
    gasUsed: u64,
    txCount: nat,
    txData: seq<Tx>)

  function DataOf(b: L2Block): BlockData {
    var h := b.header;
    BlockData(h.number, h.hash, h.parentHash, h.timestamp, h.stateRoot, h.gasUsed, h.txCount, b.transactions)
  }

  function DataOfAll(blocks: seq<L2Block>): (ds: seq<BlockData>)
    ensures |ds| == |blocks|
  {
    seq(|blocks|, i requires 0 <= i < |blocks| => DataOf(blocks[i]))
  }

  datatype BatchFrame = BatchFrame(startBlock: u64, endBlock: u64, blocks: seq<BlockData>)

  /** A batch that reached L1: its record and the frame it carried. */
  datatype Sent = Sent(batch: Batch, frame: BatchFrame)

  /** `sent` and `confirmed` are the batcher's past, which it does not store itself. */
  datatype Batcher = Batcher(
    lastBatchBlock: u64, batchIndex: u64, pending: map<Hash, Batch>, sent: seq<Sent>, confirmed: set<Batch>)

  const NEW_BATCHER: Batcher := Batcher(0, 0, map[], [], {})

  /** Blocks first..last from the database; the first that is missing, or whose record is not a block, decides. */
  function Collected(ws: seq<Write>, first: nat, last: nat): Lookup<seq<BlockData>>
    requires last < U64
    decreases last + 1 - first
  {
    if first > last then Found([])
    else
      match BlockUnder(ws, first)
      case Missing => Missing
      case Corrupt => Corrupt
      case Found(b) =>
        match Collected(ws, first + 1, last)
        case Found(rest) => Found([DataOf(b)] + rest)
        case other => other
  }

  /**
    * The next frame: everything after the last batched block, up to the current one.
    * `Missing` is nothing to send; `Corrupt` is the nil header of a record that is not a
    * block, on which the process ends.
    */
  function NextFrame(b: Batcher, n: Node): Lookup<BatchFrame> {
    if n.number <= b.lastBatchBlock then Missing
    else
      match Collected(n.history, b.lastBatchBlock + 1, n.number)
      case Missing => Missing
      case Corrupt => Corrupt
      case Found(data) => Found(BatchFrame(b.lastBatchBlock + 1, n.number, data))
  }

  function RecordOf(b: Batcher, f: BatchFrame, l1TxHash: Hash, size: nat): Batch {
    Batch(Wrap64(b.batchIndex + 1), f.startBlock, f.endBlock, f.endBlock - f.startBlock + 1, l1TxHash, size, Submitted)
  }

  /** L1 took the frame under a transaction hash. */
  function Advance(b: Batcher, f: BatchFrame, l1TxHash: Hash, size: nat): Batcher {
    var batch := RecordOf(b, f, l1TxHash, size);
    Batcher(f.endBlock, batch.index, b.pending[l1TxHash := batch], b.sent + [Sent(batch, f)], b.confirmed)
  }

  /** The answers of the L1 client about transaction hashes; `None` is an error. */
  type Answers = Hash -> Option<bool>

  function Unconfirmed(pending: map<Hash, Batch>, answers: Answers): map<Hash, Batch> {
    map h | h in pending && answers(h) != Some(true) :: pending[h]
  }

  function NowConfirmed(pending: map<Hash, Batch>, answers: Answers): set<Batch> {
    set h | h in pending && answers(h) == Some(true) :: pending[h]
  }

  function Confirm(b: Batcher, answers: Answers): Batcher {
    b.(pending := Unconfirmed(b.pending, answers), confirmed := b.confirmed + NowConfirmed(b.pending, answers))
  }

  datatype Submission = Submission(
    l1Block: Option<(u64, Hash)>, now: u64, sent: Option<Hash>, size: nat, originOk: bool, batchOk: bool)

  /** The origin moves as soon as L1 answers, even when the submission then fails. */
  function OriginStep(n: Node, s: Submission): Node {
    if s.l1Block.None? then n
    else SetL1Origin(n, L1Origin(s.l1Block.value.0, s.l1Block.value.1, s.now), s.originOk)
  }

  /**
    * One submission start to finish; `sent` is the hash L1 gave, or `None` if sending
    * failed.  The result is `None` if the process ends on a nil header.
    */
  function SubmitBatch(b: Batcher, n: Node, s: Submission): Option<(Batcher, Node)> {
    match NextFrame(b, n)
    case Missing => Some((b, n))
    case Corrupt => None
    case Found(f) =>
      if s.sent.None? then Some((b, OriginStep(n, s)))
      else
        Some((Advance(b, f, s.sent.value, s.size),
              AddBatch(OriginStep(n, s), RecordOf(b, f, s.sent.value, s.size), s.batchOk)))
  }

  // ---------- frames ----------

  ghost predicate Intact(ws: seq<Write>, blocks: seq<L2Block>, k: int) {
    1 <= k <= |blocks| && k < U64 ==> BlockUnder(ws, k) == Found(blocks[k - 1])
  }

  /**
    * Over a numbered chain, collecting gives exactly the stored blocks, or a nil header
    * exactly if a batch record overwrote one of them.
    */
  lemma {:induction false} CollectedExact(ws: seq<Write>, first: nat, last: nat)
    requires Numbered(BlocksOf(ws)) && last < U64 && 1 <= first <= last + 1 && last <= |BlocksOf(ws)|
    ensures var blocks := BlocksOf(ws);
            var r := Collected(ws, first, last);
            && (r.Found? <==> forall k {:trigger Intact(ws, blocks, k)} :: first <= k <= last ==> Intact(ws, blocks, k))
            && (if r.Found? then r.value == DataOfAll(blocks[first - 1..last]) else r.Corrupt?)
    decreases last + 1 - first
  {
    var blocks := BlocksOf(ws);
    if first <= last {
      BlockUnderNumber(ws, first);
      CollectedExact(ws, first + 1, last);
      assert Intact(ws, blocks, first) <==> BlockUnder(ws, first) == Found(blocks[first - 1]);
      assert blocks[first - 1..last] == [blocks[first - 1]] + blocks[first..last];
      DataOfCons(blocks[first - 1], blocks[first..last]);
    }
  }

  lemma DataOfCons(b: L2Block, blocks: seq<L2Block>)
    ensures DataOfAll([b] + blocks) == [DataOf(b)] + DataOfAll(blocks)
  {}

  // ---------- the invariant ----------

  function FramesConcat(sent: seq<Sent>): seq<BlockData> {
    if sent == [] then [] else FramesConcat(sent[..|sent| - 1]) + sent[|sent| - 1].frame.blocks
  }

  ghost predicate SentOk(sent: seq<Sent>, k: int) {
    0 <= k < |sent| ==>
      && sent[k].batch.index == k + 1 && sent[k].batch.status == Submitted
      && sent[k].batch.startBlock == sent[k].frame.startBlock
      && sent[k].batch.endBlock == sent[k].frame.endBlock
      && sent[k].frame.startBlock == (if k == 0 then 1 else sent[k - 1].frame.endBlock + 1)
      && sent[k].frame.startBlock <= sent[k].frame.endBlock
      && sent[k].batch.blockCount == |sent[k].frame.blocks| == sent[k].frame.endBlock + 1 - sent[k].frame.startBlock
  }

  /** Indices 1, 2, 3, ..., intervals contiguous from block 1, and all frames together the chain's own blocks in order. */
  ghost predicate BatchesOk(b: Batcher, blocks: seq<L2Block>) {
    && (forall k: int {:trigger SentOk(b.sent, k)} :: SentOk(b.sent, k))
    && b.batchIndex == |b.sent|
    && b.lastBatchBlock == (if b.sent == [] then 0 else b.sent[|b.sent| - 1].frame.endBlock)
    && b.lastBatchBlock <= |blocks|
    && FramesConcat(b.sent) == DataOfAll(blocks[..b.lastBatchBlock])
  }

  /** Blocks added since change nothing about what has been submitted. */
  lemma BatchesOkGrows(b: Batcher, blocks: seq<L2Block>, longer: seq<L2Block>)
    requires BatchesOk(b, blocks) && blocks <= longer
    ensures BatchesOk(b, longer)
  {
    assert longer[..b.lastBatchBlock] == blocks[..b.lastBatchBlock];
  }

  /** A frame collected for the batcher as it stands, from a chain the current one extends. */
  ghost predicate FrameFor(b: Batcher, f: BatchFrame, blocks: seq<L2Block>) {
    && f.startBlock == b.lastBatchBlock + 1
    && f.startBlock <= f.endBlock <= |blocks|
    && f.blocks == DataOfAll(blocks[f.startBlock - 1..f.endBlock])
  }

  lemma FrameForGrows(b: Batcher, f: BatchFrame, blocks: seq<L2Block>, longer: seq<L2Block>)
    requires FrameFor(b, f, blocks) && blocks <= longer
    ensures FrameFor(b, f, longer)
  {
    assert longer[f.startBlock - 1..f.endBlock] == blocks[f.startBlock - 1..f.endBlock];
  }

  /** What collecting for a batcher gives, by what is on disk. */
  ghost predicate NextFrameIs(b: Batcher, n: Node, r: Lookup<BatchFrame>) {
    var blocks := BlocksOf(n.history);
    match r
    case Missing => n.number == b.lastBatchBlock
    case Found(f) =>
      && FrameFor(b, f, blocks) && f.endBlock == n.number
      && forall k {:trigger Intact(n.history, blocks, k)} ::
           b.lastBatchBlock < k <= n.number ==> Intact(n.history, blocks, k)
    case Corrupt =>
      exists k {:trigger Intact(n.history, blocks, k)} ::
        b.lastBatchBlock < k <= n.number && !Intact(n.history, blocks, k)
  }

  lemma CollectedFrame(b: Batcher, n: Node)
    requires Numbered(BlocksOf(n.history)) && n.number == |BlocksOf(n.history)| && b.lastBatchBlock <= n.number
    ensures NextFrameIs(b, n, NextFrame(b, n))
  {
    if n.number > b.lastBatchBlock {
      CollectedExact(n.history, b.lastBatchBlock + 1, n.number);
    }
  }

  /**
    * A frame is what is missing between the last batch and the current block; there is
    * nothing to send exactly if nothing is missing, and a nil header exactly if a batch
    * record has overwritten one of the missing blocks.
    */
  lemma NextFrameExact(cfg: Config, base: World, b: Batcher, n: Node)
    requires NodeOk(cfg, base, n) && BatchesOk(b, BlocksOf(n.history))
    ensures NextFrameIs(b, n, NextFrame(b, n))
  {
    hide NextFrameIs;
    ChainNumbered(cfg, base, BlocksOf(n.history));
    CollectedFrame(b, n);
  }

  /**
    * A batcher just created on a chain starts at block 1 with index 1: after a restart
    * everything already submitted is sent again, and record 1 is written over.
    */
  lemma NewBatcherResends(cfg: Config, base: World, n: Node, l1TxHash: Hash, size: nat)
    requires NodeOk(cfg, base, n) && BlocksOf(n.history) != [] && NextFrame(NEW_BATCHER, n).Found?
    ensures var f := NextFrame(NEW_BATCHER, n).value;
            && f.startBlock == 1 && f.blocks == DataOfAll(BlocksOf(n.history))
            && RecordOf(NEW_BATCHER, f, l1TxHash, size).index == 1
  {
    var blocks := BlocksOf(n.history);
    NewBatcherOk(blocks);
    NextFrameExact(cfg, base, NEW_BATCHER, n);
    assert blocks[0..|blocks|] == blocks;
  }

  lemma NewBatcherOk(blocks: seq<L2Block>)
    ensures BatchesOk(NEW_BATCHER, blocks)
  {
    forall k: int
      ensures SentOk(NEW_BATCHER.sent, k)
    {}
  }

  lemma AdvanceKeeps(b: Batcher, f: BatchFrame, blocks: seq<L2Block>, l1TxHash: Hash, size: nat)
    requires BatchesOk(b, blocks) && FrameFor(b, f, blocks) && |b.sent| + 1 < U64
    ensures BatchesOk(Advance(b, f, l1TxHash, size), blocks)
    ensures var sent := Advance(b, f, l1TxHash, size).sent;
            && |sent| == |b.sent| + 1 && sent[..|b.sent|] == b.sent && sent[|b.sent|].frame == f
            && sent[|b.sent|].batch.l1TxHash == l1TxHash && sent[|b.sent|].batch.sizeBytes == size
  {
    var b' := Advance(b, f, l1TxHash, size);
    WrapSmall(b.batchIndex + 1);
    assert b'.sent[..|b.sent|] == b.sent;
    forall k: int
      ensures SentOk(b'.sent, k)
    {
      assert SentOk(b.sent, k) && SentOk(b.sent, k - 1);
    }
    var last, end := b.lastBatchBlock, f.endBlock;
    assert blocks[..end] == blocks[..last] + blocks[last..end];
    DataOfAppend(blocks[..last], blocks[last..end]);
  }

  lemma DataOfAppend(a: seq<L2Block>, b: seq<L2Block>)
    ensures DataOfAll(a + b) == DataOfAll(a) + DataOfAll(b)
  {}

  // ---------- tracking ----------

  function Records(sent: seq<Sent>): seq<Batch> {
    seq(|sent|, i requires 0 <= i < |sent| => sent[i].batch)
  }

  predicate IsPending(b: Batcher, batch: Batch) {
    batch.l1TxHash in b.pending && b.pending[batch.l1TxHash] == batch
  }

  ghost predicate TrackedAt(b: Batcher, batch: Batch) {
    batch in Records(b.sent) ==> IsPending(b, batch) != (batch in b.confirmed)
  }

  ghost predicate PendingAt(b: Batcher, h: Hash) {
    h in b.pending ==> b.pending[h].l1TxHash == h && b.pending[h] in Records(b.sent)
  }

  /** Every batch sent is either pending, under its own hash, or confirmed; and nothing else is pending or confirmed. */
  ghost predicate Tracked(b: Batcher) {
    && (forall batch {:trigger TrackedAt(b, batch)} :: TrackedAt(b, batch))
    && (forall h {:trigger PendingAt(b, h)} :: PendingAt(b, h))
    && (forall batch :: batch in b.confirmed ==> batch in Records(b.sent))
  }

  lemma RecordIndexed(b: Batcher, blocks: seq<L2Block>, batch: Batch)
    requires BatchesOk(b, blocks) && batch in Records(b.sent)
    ensures batch.index <= |b.sent|
  {
    var i :| 0 <= i < |b.sent| && Records(b.sent)[i] == batch;
    assert SentOk(b.sent, i);
  }

  /**
    * A submission keeps every batch accounted for exactly if its L1 hash is not that of a
    * batch still pending; under a repeated hash the older batch is forgotten, neither
    * pending nor confirmed.
    */
  lemma AdvanceTracksExactly(b: Batcher, f: BatchFrame, blocks: seq<L2Block>, l1TxHash: Hash, size: nat)
    requires BatchesOk(b, blocks) && Tracked(b) && |b.sent| + 1 < U64
    ensures Tracked(Advance(b, f, l1TxHash, size)) <==> l1TxHash !in b.pending
  {
    var b', newest := Advance(b, f, l1TxHash, size), RecordOf(b, f, l1TxHash, size);
    WrapSmall(b.batchIndex + 1);
    assert Records(b'.sent) == Records(b.sent) + [newest];
    if l1TxHash in b.pending {
      var older := b.pending[l1TxHash];
      assert PendingAt(b, l1TxHash) && TrackedAt(b, older);
      RecordIndexed(b, blocks, older);
      assert !TrackedAt(b', older);
    } else {
      forall batch
        ensures TrackedAt(b', batch)
      {
        assert TrackedAt(b, batch);
        if batch in Records(b.sent) {
          RecordIndexed(b, blocks, batch);
        }
        if batch == newest && batch in b.confirmed {
          RecordIndexed(b, blocks, batch);
        }
      }
      forall h
        ensures PendingAt(b', h)
      {
        assert PendingAt(b, h);
      }
    }
  }

  /** A confirmation round moves batches from pending to confirmed and forgets none. */
  lemma ConfirmKeeps(b: Batcher, blocks: seq<L2Block>, answers: Answers)
    requires BatchesOk(b, blocks) && Tracked(b)
    ensures BatchesOk(Confirm(b, answers), blocks) && Tracked(Confirm(b, answers))
  {
    var b' := Confirm(b, answers);
    assert b'.sent == b.sent;
    forall k: int
      ensures SentOk(b'.sent, k)
    {
      assert SentOk(b.sent, k);
    }
    forall batch
      ensures TrackedAt(b', batch)
    {
      assert TrackedAt(b, batch);
      if batch in NowConfirmed(b.pending, answers) {
        var h :| h in b.pending && answers(h) == Some(true) && b.pending[h] == batch;
        assert PendingAt(b, h);
      }
    }
    forall h
      ensures PendingAt(b', h)
    {
      assert PendingAt(b, h);
    }
    forall batch | batch in b'.confirmed
      ensures batch in Records(b'.sent)
    {
      if batch in NowConfirmed(b.pending, answers) {
        var h :| h in b.pending && answers(h) == Some(true) && b.pending[h] == batch;
        assert PendingAt(b, h);
      }
    }
  }

  // ---------- the simulated L1 client ----------

  /** The devnet client's hash: L1 block number plus size of the data, as 32 big-endian bytes. */
  function SimulatedHash(l1Block: u64, size: u64): Hash {
    Fixed(l1Block + size, 32)
  }

  lemma FixedInjective(a: nat, b: nat, width: nat)
    requires a < Pow256(width) && b < Pow256(width)
    ensures Fixed(a, width) == Fixed(b, width) <==> a == b
  {
    ValueOfFixed(a, width);
    ValueOfFixed(b, width);
  }

  /** Its hashes repeat exactly when a later, smaller batch makes up for the blocks in between. */
  lemma SimulatedHashesRepeat(l1Block: u64, size: u64, later: u64, size': u64)
    ensures SimulatedHash(l1Block, size) == SimulatedHash(later, size') <==> later - l1Block == size - size'
  {
    hide Fixed;
    var x, y := l1Block + size, later + size';
    SimulatedHashIs(x, y, 32);
    assert x == y <==> later - l1Block == size - size';
  }

  lemma SimulatedHashIs(x: nat, y: nat, width: nat)
    requires x < 2 * U64 && y < 2 * U64 && width == 32
    ensures Fixed(x, width) == Fixed(y, width) <==> x == y
  {
    WideEnough(x, width);
    WideEnough(y, width);
    FixedInjective(x, y, width);
  }

  lemma WideEnough(x: nat, width: nat)
    requires x < 2 * U64 && width == 32
    ensures x < Pow256(width)
  {
    assert Pow256(9) == 256 * U64 by {
      assert Pow256(3) == 0x100_0000;
      assert Pow256(6) == 0x1_0000_0000_0000;
    }
    PowMonotone(9, width);
  }

  lemma {:induction false} PowMonotone(a: nat, b: nat)
    requires a <= b
    ensures Pow256(a) <= Pow256(b)
  {
    if a < b {
      PowMonotone(a, b - 1);
    }
  }
}
