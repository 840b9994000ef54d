/** What the compute receipts stored for a block say, in terms of the chain. */
module ComputeLaws {
  import opened Common
  import opened Transactions
  import opened Ledger
  import opened Execution
  import opened ChainStore
  import opened ChainState
  import opened ChainProofs
  import Receipts
  import ComputeReceipts
  import Producer

  /** The content of a stored receipt, from its transaction and execution receipt. */
  ghost predicate Speaks(
    sha: Receipts.Digest, keccak: Receipts.Digest, r: Receipts.ComputeReceipt, tx: Tx, receipt: Receipt)
  {
    && r.txHash == tx.hash && r.to == tx.to && r.value == Some(tx.value) && r.gasPrice == tx.gasPrice
    && (if tx.from.Some? then r.sender == tx.from.value else forall k :: 0 <= k < 20 ==> r.sender[k] == 0)
    && r.gasUsed == receipt.gasUsed && r.status == (if receipt.success then 1 else 0)
    && r.inputHash == keccak(tx.data) && r.outputHash == keccak([])
    && r.logsHash == ComputeReceipts.LogsHash(sha, receipt.logs)
    && Receipts.Verifies(sha, r)
  }

  /**
    * A block written on a good node: its i-th compute receipt names the i-th transaction and
    * what became of it, between the root under which the state before the block is opened
    * (the parent's root) and the root of the state its re-execution leaves.
    */
  lemma StoredReceiptsTell(
    sha: Receipts.Digest, keccak: Receipts.Digest, cfg: Config, base: World, n: Node, z: Node, b: L2Block, now: nat, i: u64)
    requires NodeOk(cfg, base, n) && NodeOk(cfg, base, z) && z.history == n.history + [PutBlock(b)]
    requires i < |b.transactions|
    ensures |b.transactions| == |b.receipts|
    ensures var blocks, h := BlocksOf(n.history), b.header;
            var w := Replay(cfg.machine, base, blocks);
            var r := Producer.ReceiptsOf(sha, keccak, b.transactions, b.receipts, h.number, n.root, h.stateRoot, now)[i];
            && r.blockNumber == h.number == |blocks| + 1 && r.txIndex == i && r.executedAt == now
            && Speaks(sha, keccak, r, b.transactions[i], b.receipts[i])
            && Open(n.states, r.preStateRoot) == Some(w)
            && (blocks != [] ==> r.preStateRoot == blocks[|blocks| - 1].header.stateRoot)
            && r.postStateRoot == cfg.rootOf(Persisted(Execute(cfg.machine, CtxOfHeader(h), w, b.transactions).world))
  {
    hide NodeOk, Faithful, Replay, ReplayBlock, Execute, BlocksOf, Open;
    NewestBlock(cfg, base, n, z, b);
    ReceiptSpeaks(sha, keccak, b, n.root, now, i);
  }

  /** The block just written, on the state it was executed on. */
  lemma NewestBlock(cfg: Config, base: World, n: Node, z: Node, b: L2Block)
    requires NodeOk(cfg, base, n) && NodeOk(cfg, base, z) && z.history == n.history + [PutBlock(b)]
    ensures var blocks := BlocksOf(n.history);
            var w := Replay(cfg.machine, base, blocks);
            && |b.transactions| == |b.receipts| && b.header.number == |blocks| + 1
            && Open(n.states, n.root) == Some(w)
            && (blocks != [] ==> n.root == blocks[|blocks| - 1].header.stateRoot)
            && b.header.stateRoot ==
               cfg.rootOf(Persisted(Execute(cfg.machine, CtxOfHeader(b.header), w, b.transactions).world))
  {
    hide Execute, Founded, Open, SealAll;
    var blocks := BlocksOf(n.history);
    HistorySnoc(n.history, PutBlock(b));
    LastFaithful(cfg, base, blocks, b);
  }

  lemma LastFaithful(cfg: Config, base: World, blocks: seq<L2Block>, b: L2Block)
    requires ChainOk(cfg, base, blocks + [b])
    ensures Faithful(cfg, Replay(cfg.machine, base, blocks), b) && b.header.number == |blocks| + 1
  {
    hide Faithful;
    assert (blocks + [b])[|blocks|] == b && (blocks + [b])[..|blocks|] == blocks;
    assert FaithfulAt(cfg, base, blocks + [b], |blocks|) && Linked(blocks + [b], |blocks|);
  }

  lemma ReceiptSpeaks(sha: Receipts.Digest, keccak: Receipts.Digest, b: L2Block, pre: Hash, now: nat, i: u64)
    requires i < |b.transactions| == |b.receipts|
    ensures var h := b.header;
            var r := Producer.ReceiptsOf(sha, keccak, b.transactions, b.receipts, h.number, pre, h.stateRoot, now)[i];
            && r.blockNumber == h.number && r.txIndex == i && r.executedAt == now
            && r.preStateRoot == pre && r.postStateRoot == h.stateRoot
            && Speaks(sha, keccak, r, b.transactions[i], b.receipts[i])
  {
    hide ComputeReceipts.LogsHash;
    WrapSmall(i);
  }
}
