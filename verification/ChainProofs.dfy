/**
  * What every run of the state manager keeps: the stored blocks form a numbered, linked
  * chain, re-executing them from the starting state reproduces every state root and
  * receipt, and the tip in memory is the end of that chain.
  */
module ChainProofs {
  import opened Common
  import opened BigEndian
  import opened ChainKeys
  import opened Transactions
  import opened Ledger
  import opened Execution
  import opened BlockProofs
  import opened ChainStore
  import opened ChainStoreProofs
  import opened ChainState

  // ---------- block hashes ----------

  /** A string of up to 32 bytes keeps its number; of a longer one the end is kept. */
  lemma HashOfBytes(b: Bytes)
    ensures |b| <= 32 ==> Value(BytesToHash(b)) == Value(b)
    ensures |b| >= 32 ==> BytesToHash(b) == b[|b| - 32..]
  {
    hide Value;
    if |b| < 32 {
      LeadingZeros(Zeros(32 - |b|), b);
    } else {
      assert b[0..] == b;
    }
  }

  /** The parent hash comes last in the hashed bytes and only the last 32 are kept, so a block has its parent's hash. */
  lemma BlockHashIsParentHash(number: u64, root: Hash, timestamp: u64, parentHash: Hash)
    ensures BlockHash(number, root, timestamp, parentHash) == parentHash
  {
    var r: Bytes, p: Bytes := root, parentHash;
    var front := Minimal(number) + r + Minimal(timestamp);
    assert (front + p)[|front + p| - 32..] == p;
  }

  // ---------- pairing by hash ----------

  /** Equal hashes mean equal transactions. */
  predicate HashDetermines(txs: seq<Tx>) {
    forall i, j :: 0 <= i < |txs| && 0 <= j < |txs| && txs[i].hash == txs[j].hash ==> txs[i] == txs[j]
  }

  lemma {:induction false} FindTxFinds(txs: seq<Tx>, tx: Tx)
    requires tx in txs
    ensures FindTx(txs, tx.hash).Some?
    ensures FindTx(txs, tx.hash).value in txs && FindTx(txs, tx.hash).value.hash == tx.hash
  {
    if txs[0].hash != tx.hash {
      assert tx in txs[1..];
      FindTxFinds(txs[1..], tx);
    }
  }

  /** The quadratic search by hash pairs receipts with transactions exactly as their positions do. */
  lemma {:induction false} MatchingIsPositional(txs: seq<Tx>, included: seq<Tx>, rs: seq<Receipt>)
    requires HashDetermines(txs) && Aligned(included, rs)
    requires forall k :: 0 <= k < |included| ==> included[k] in txs
    ensures Matching(txs, rs) == included
  {
    if rs != [] {
      var k := |rs| - 1;
      MatchingIsPositional(txs, included[..k], rs[..k]);
      FindTxFinds(txs, included[k]);
      assert included == included[..k] + [included[k]];
    }
  }

  // ---------- a block re-executes to itself ----------

  function CtxOfHeader(h: Header): BlockCtx {
    BlockCtx(h.number, h.timestamp, h.sequencer, h.gasLimit, h.baseFee, h.parentHash)
  }

  /** Re-execution of the block's own transactions. */
  function ReplayBlock(m: Machine, w: World, b: L2Block): BlockRun {
    Execute(m, CtxOfHeader(b.header), w, b.transactions)
  }

  /** Receipts sit at the positions of their transactions and carry the block's stamp. */
  ghost predicate Stamped(b: L2Block) {
    && |b.receipts| == |b.transactions| == b.header.txCount
    && forall k :: 0 <= k < |b.receipts| ==>
         && b.receipts[k].txHash == b.transactions[k].hash
         && b.receipts[k].blockHash == b.header.hash
         && b.receipts[k].blockNumber == b.header.number
         && b.receipts[k].txIndex == k
  }

  /** What a validator checks: the block's transactions all execute on w, to the block's gas, root and receipts. */
  ghost predicate Faithful(cfg: Config, w: World, b: L2Block) {
    var r := ReplayBlock(cfg.machine, w, b);
    && r.skipped == [] && r.included == b.transactions
    && r.gas == b.header.gasUsed
    && b.header.gasLimit == BLOCK_GAS && b.header.sequencer == cfg.sequencer
    && RootAfter(cfg, r.world) == b.header.stateRoot
    && Stamped(b)
    && SameUpToIndex(b.receipts, SealAll(r.receipts, b.header.hash, b.header.number))
  }

  lemma SealSameUpToIndex(a: seq<Receipt>, b: seq<Receipt>, hash: Hash, number: u64)
    requires SameUpToIndex(a, b)
    ensures SameUpToIndex(SealAll(b, hash, number), SealAll(a, hash, number))
  {
    forall k | 0 <= k < |a|
      ensures Unindexed(SealAll(b, hash, number)[k]) == Unindexed(SealAll(a, hash, number)[k])
    {
      assert Unindexed(a[k]) == Unindexed(b[k]);
      SealUnindexed(a[k], hash, number, k);
      SealUnindexed(b[k], hash, number, k);
    }
  }

  lemma SealUnindexed(r: Receipt, hash: Hash, number: u64, i: nat)
    ensures Unindexed(Sealed(r, hash, number, i)) == Unindexed(r).(blockHash := hash, blockNumber := number)
  {}

  lemma AssembleFaithful(
    cfg: Config, w: World, txs: seq<Tx>, number: u64, timestamp: u64, parentHash: Hash, baseFee: nat, origin: L1Origin)
    returns (run: BlockRun, b: L2Block)
    requires HashDetermines(txs)
    ensures run == Execute(cfg.machine, CtxOf(cfg, number, timestamp, parentHash, baseFee), w, txs)
    ensures b == Assemble(cfg, txs, run, number, timestamp, parentHash, baseFee, origin)
    ensures b.transactions == run.included
    ensures Faithful(cfg, w, b) && ReplayBlock(cfg.machine, w, b).world == run.world
  {
    var ctx := CtxOf(cfg, number, timestamp, parentHash, baseFee);
    run := Execute(cfg.machine, ctx, w, txs);
    b := Assemble(cfg, txs, run, number, timestamp, parentHash, baseFee, origin);
    BlockPartitions(cfg.machine, ctx, w, txs);
    forall k | 0 <= k < |run.included|
      ensures run.included[k] in txs
    {
      assert run.included[k] in multiset(run.included);
      assert run.included[k] in multiset(txs);
    }
    MatchingIsPositional(txs, run.included, run.receipts);
    BlockReplays(cfg.machine, ctx, w, txs);
    assert CtxOfHeader(b.header) == ctx;
    SealSameUpToIndex(ReplayBlock(cfg.machine, w, b).receipts, run.receipts, b.header.hash, number);
  }

  /**
    * Sealing renumbers a receipt but not its logs: they keep the position their transaction
    * was offered at, which is the receipt's exactly if nothing was skipped before it.
    */
  lemma LogsKeepOfferedPosition(
    cfg: Config, w: World, txs: seq<Tx>, number: u64, timestamp: u64, parentHash: Hash, baseFee: nat, origin: L1Origin,
    k: nat)
    requires k < |Execute(cfg.machine, CtxOf(cfg, number, timestamp, parentHash, baseFee), w, txs).receipts|
    ensures var ctx := CtxOf(cfg, number, timestamp, parentHash, baseFee);
            var run := Execute(cfg.machine, ctx, w, txs);
            var sealed := Assemble(cfg, txs, run, number, timestamp, parentHash, baseFee, origin).receipts[k];
            var offered := run.receipts[k].txIndex;
            && sealed.txIndex == k
            && (forall l :: l in sealed.logs ==> l.txIndex == offered)
            && offered < |txs|
            && (offered == sealed.txIndex <==> Execute(cfg.machine, ctx, w, txs[..offered]).skipped == [])
  {
    BlockPositions(cfg.machine, CtxOf(cfg, number, timestamp, parentHash, baseFee), w, txs, k);
  }

  // ---------- chains ----------

  /** The state after a chain of blocks, from the blocks alone. */
  function Replay(m: Machine, base: World, blocks: seq<L2Block>): World {
    if blocks == [] then base
    else Persisted(ReplayBlock(m, Replay(m, base, blocks[..|blocks| - 1]), blocks[|blocks| - 1]).world)
  }

  ghost predicate FaithfulAt(cfg: Config, base: World, blocks: seq<L2Block>, k: int) {
    0 <= k < |blocks| ==> Faithful(cfg, Replay(cfg.machine, base, blocks[..k]), blocks[k])
  }

  ghost predicate Linked(blocks: seq<L2Block>, k: int) {
    0 <= k < |blocks| ==>
      && blocks[k].header.number == k + 1
      && blocks[k].header.parentHash == (if k == 0 then ZERO_HASH else blocks[k - 1].header.hash)
      && blocks[k].header.hash == blocks[k].header.parentHash
  }

  ghost predicate Numbered(blocks: seq<L2Block>) {
    forall k: int {:trigger blocks[k]} :: 0 <= k < |blocks| ==> blocks[k].header.number == k + 1
  }

  ghost predicate ChainOk(cfg: Config, base: World, blocks: seq<L2Block>) {
    && (forall k: int {:trigger FaithfulAt(cfg, base, blocks, k)} :: FaithfulAt(cfg, base, blocks, k))
    && (forall k: int {:trigger Linked(blocks, k)} :: Linked(blocks, k))
  }

  lemma ChainSnoc(cfg: Config, base: World, blocks: seq<L2Block>, b: L2Block)
    requires ChainOk(cfg, base, blocks)
    requires Faithful(cfg, Replay(cfg.machine, base, blocks), b)
    requires b.header.number == |blocks| + 1
    requires b.header.parentHash == (if blocks == [] then ZERO_HASH else blocks[|blocks| - 1].header.hash)
    requires b.header.hash == b.header.parentHash
    ensures ChainOk(cfg, base, blocks + [b])
    ensures Replay(cfg.machine, base, blocks + [b]) ==
            Persisted(ReplayBlock(cfg.machine, Replay(cfg.machine, base, blocks), b).world)
  {
    var longer := blocks + [b];
    assert longer[..|blocks|] == blocks;
    forall k: int
      ensures FaithfulAt(cfg, base, longer, k) && Linked(longer, k)
    {
      assert FaithfulAt(cfg, base, blocks, k) && Linked(blocks, k);
      if 0 <= k < |blocks| {
        assert longer[..k] == blocks[..k];
      }
    }
  }

  lemma ChainNumbered(cfg: Config, base: World, blocks: seq<L2Block>)
    requires ChainOk(cfg, base, blocks)
    ensures Numbered(blocks)
    ensures forall k :: 0 <= k < |blocks| ==> blocks[k].header.hash == ZERO_HASH
  {
    hide ChainOk;
    forall k: int | 0 <= k < |blocks|
      ensures blocks[k].header.number == k + 1
      ensures blocks[k].header.hash == ZERO_HASH
    {
      ZeroHashes(cfg, base, blocks, k);
    }
  }

  lemma {:induction false} ZeroHashes(cfg: Config, base: World, blocks: seq<L2Block>, k: nat)
    requires ChainOk(cfg, base, blocks) && k < |blocks|
    ensures blocks[k].header.number == k + 1
    ensures blocks[k].header.hash == ZERO_HASH
  {
    hide FaithfulAt;
    assert Linked(blocks, k);
    if k > 0 {
      ZeroHashes(cfg, base, blocks, k - 1);
    }
  }

  // ---------- reads of a chain ----------

  /** Under the number of a stored block is that block, or a batch record that overwrote it. */
  lemma {:induction false} BlockUnderNumber(ws: seq<Write>, n: u64)
    requires Numbered(BlocksOf(ws))
    ensures var blocks := BlocksOf(ws);
            BlockUnder(ws, n) == Corrupt ||
            BlockUnder(ws, n) == if 1 <= n <= |blocks| then Found(blocks[n - 1]) else Missing
  {
    if ws != [] {
      var front, blocks := ws[..|ws| - 1], BlocksOf(ws);
      var before := BlocksOf(front);
      assert forall k: int {:trigger before[k]} :: 0 <= k < |before| ==> before[k] == blocks[k];
      BlockUnderNumber(front, n);
      if ws[|ws| - 1].PutBlock? {
        assert blocks[|before|] == ws[|ws| - 1].block;
      }
    }
  }

  /** Number 0 is never a clash, so the first block always finds no parent. */
  lemma {:induction false} NoBlockZero(ws: seq<Write>)
    requires Numbered(BlocksOf(ws))
    ensures BlockUnder(ws, 0) == Missing
  {
    if ws != [] {
      var front, blocks := ws[..|ws| - 1], BlocksOf(ws);
      var before := BlocksOf(front);
      assert forall k: int {:trigger before[k]} :: 0 <= k < |before| ==> before[k] == blocks[k];
      NoBlockZero(front);
      if ws[|ws| - 1].PutBlock? {
        assert blocks[|before|] == ws[|ws| - 1].block;
      } else if ws[|ws| - 1].PutBatch? {
        PowPositive(|Minimal(ws[|ws| - 1].batch.index)|);
      }
    }
  }

  lemma {:induction false} PowPositive(k: nat)
    ensures Pow256(k) > 0
  {
    if k > 0 {
      PowPositive(k - 1);
    }
  }

  lemma {:induction false} LastBlockIsLast(ws: seq<Write>)
    ensures var blocks := BlocksOf(ws);
            LastBlock(ws, (b: L2Block) => true) == if blocks == [] then None else Some(blocks[|blocks| - 1])
  {
    if ws != [] {
      LastBlockIsLast(ws[..|ws| - 1]);
    }
  }

  // ---------- the invariant ----------

  ghost predicate TipOk(cfg: Config, base: World, n: Node) {
    var blocks := BlocksOf(n.history);
    && n.number == |blocks|
    && (blocks != [] ==> n.root == blocks[|blocks| - 1].header.stateRoot)
    && Open(n.states, n.root) == Some(Replay(cfg.machine, base, blocks))
  }

  /** A genesis root is on disk, so that a restart takes the restoring path. */
  ghost predicate Founded(n: Node) {
    LastGenesisRoot(n.history).Some? && LastGenesisRoot(n.history).value != ZERO_HASH
  }

  ghost predicate NodeOk(cfg: Config, base: World, n: Node) {
    && ChainOk(cfg, base, BlocksOf(n.history)) && TipOk(cfg, base, n) && Founded(n)
    && base.destructed == {}
  }

  /** The root under which w is saved does not collide with that of another saved state, nor with the zero root. */
  ghost predicate SaveOk(cfg: Config, states: map<Hash, World>, w: World) {
    var r := RootAfter(cfg, w);
    r != ZERO_HASH && (r in states ==> states[r] == Persisted(w))
  }

  /** The state a production would commit, if it gets as far as executing. */
  ghost function ProducedWorld(cfg: Config, n: Node, txs: seq<Tx>, timestamp: u64, baseFee: nat): Option<World> {
    var parent, w := BlockHashAt(n.history, n.number), Open(n.states, n.root);
    if parent.None? || w.None? then None
    else Some(Execute(cfg.machine, CtxOf(cfg, Wrap64(n.number + 1), timestamp, parent.value, baseFee), w.value, txs).world)
  }

  ghost predicate ChainEventOk(cfg: Config, n: Node, e: ChainEvent) {
    e.Produce? ==>
      && HashDetermines(e.txs) && n.number + 1 < U64
      && (var w := ProducedWorld(cfg, n, e.txs, e.timestamp, e.baseFee);
          w.Some? ==> SaveOk(cfg, n.states, w.value))
  }

  /** Restarting before the first block has been produced leaves the genesis state behind. */
  ghost function BaseAfter(n: Node, e: ChainEvent, base: World): World {
    if e.Restart? && BlocksOf(n.history) == [] then EMPTY_WORLD else base
  }

  lemma HistorySnoc(ws: seq<Write>, w: Write)
    ensures BlocksOf(ws + [w]) == BlocksOf(ws) + (if w.PutBlock? then [w.block] else [])
    ensures LastGenesisRoot(ws + [w]) == if w.PutGenesisRoot? then Some(w.root) else LastGenesisRoot(ws)
    ensures LastOrigin(ws + [w]) == if w.PutL1Origin? then Some(w.origin) else LastOrigin(ws)
  {
    assert (ws + [w])[..|ws|] == ws;
  }

  /** The parent hash found is the hash of the last block, or zero before the first. */
  lemma ParentFound(cfg: Config, base: World, n: Node)
    requires NodeOk(cfg, base, n) && BlockHashAt(n.history, n.number).Some?
    ensures var blocks := BlocksOf(n.history);
            BlockHashAt(n.history, n.number).value ==
            if blocks == [] then ZERO_HASH else blocks[|blocks| - 1].header.hash
  {
    ChainNumbered(cfg, base, BlocksOf(n.history));
    BlockUnderNumber(n.history, n.number);
    NoBlockZero(n.history);
  }

  /** Executing on a good node starts from the replayed state, and what it saves does not collide. */
  lemma CommitStart(
    cfg: Config, base: World, n: Node, txs: seq<Tx>, timestamp: u64, parentHash: Hash, baseFee: nat,
    commitOk: bool, writeOk: bool) returns (w: World)
    requires TipOk(cfg, base, n) && BlockHashAt(n.history, n.number) == Some(parentHash)
    requires ChainEventOk(cfg, n, Produce(txs, timestamp, baseFee, commitOk, writeOk))
    ensures w == Replay(cfg.machine, base, BlocksOf(n.history)) && Open(n.states, n.root) == Some(w)
    ensures n.number + 1 < U64 && HashDetermines(txs)
    ensures SaveOk(cfg, n.states, Execute(cfg.machine, CtxOf(cfg, n.number + 1, timestamp, parentHash, baseFee), w, txs).world)
  {
    hide Execute, SaveOk, HashDetermines, BlockHashAt, Open;
    WrapSmall(n.number + 1);
    w := Replay(cfg.machine, base, BlocksOf(n.history));
  }

  /** Saving a state that does not collide leaves every saved state in place. */
  lemma SaveOpens(cfg: Config, states: map<Hash, World>, w: World, root: Hash)
    requires SaveOk(cfg, states, w)
    ensures Open(states, root).Some? ==> Open(Save(cfg, states, w), root) == Open(states, root)
    ensures Open(Save(cfg, states, w), RootAfter(cfg, w)) == Some(Persisted(w))
  {}

  lemma SavedKeeps(cfg: Config, base: World, n: Node, w: World)
    requires NodeOk(cfg, base, n) && SaveOk(cfg, n.states, w)
    ensures NodeOk(cfg, base, n.(states := Save(cfg, n.states, w)))
  {
    hide ChainOk, SaveOk, Open, Save;
    SaveOpens(cfg, n.states, w, n.root);
  }

  /** The node with the assembled block written. */
  ghost function Grown(cfg: Config, n: Node, w: World, b: L2Block): Node
    requires n.number + 1 < U64
  {
    n.(states := Save(cfg, n.states, w), history := n.history + [PutBlock(b)], number := n.number + 1, root := b.header.stateRoot)
  }

  lemma GrownKeeps(cfg: Config, base: World, n: Node, w: World, b: L2Block)
    requires NodeOk(cfg, base, n) && SaveOk(cfg, n.states, w) && n.number + 1 < U64
    requires var before := Replay(cfg.machine, base, BlocksOf(n.history));
             Faithful(cfg, before, b) && ReplayBlock(cfg.machine, before, b).world == w
    requires b.header.number == n.number + 1 && b.header.hash == b.header.parentHash
    requires b.header.stateRoot == RootAfter(cfg, w)
    requires BlockHashAt(n.history, n.number) == Some(b.header.parentHash)
    ensures NodeOk(cfg, base, Grown(cfg, n, w, b))
  {
    hide ChainOk, SaveOk, Open, Save, Faithful, ReplayBlock, BlockHashAt, RootAfter;
    ParentFound(cfg, base, n);
    SaveOpens(cfg, n.states, w, n.root);
    HistorySnoc(n.history, PutBlock(b));
    ChainSnoc(cfg, base, BlocksOf(n.history), b);
  }

  /**
    * One commit attempt on a good node: if it succeeds the chain grows by one faithful
    * block holding exactly the included transactions; if it fails, tip, history and the
    * state the tip opens are what they were.
    */
  lemma CommitKeeps(
    cfg: Config, base: World, n: Node, txs: seq<Tx>, timestamp: u64, parentHash: Hash, baseFee: nat,
    commitOk: bool, writeOk: bool) returns (c: Committed)
    requires NodeOk(cfg, base, n) && BlockHashAt(n.history, n.number) == Some(parentHash)
    requires ChainEventOk(cfg, n, Produce(txs, timestamp, baseFee, commitOk, writeOk))
    ensures c == ExecuteAndCommitBlock(cfg, n, txs, Wrap64(n.number + 1), timestamp, parentHash, baseFee, commitOk, writeOk)
    ensures NodeOk(cfg, base, c.node) && c.node.origin == n.origin
    ensures c.outcome.Failed? <==> !(commitOk && writeOk)
    ensures c.outcome.Failed? ==>
              c.node.history == n.history && c.node.number == n.number && c.node.root == n.root
    ensures c.outcome.Produced? ==>
              var w := Replay(cfg.machine, base, BlocksOf(n.history));
              var run := Execute(cfg.machine, CtxOf(cfg, Wrap64(n.number + 1), timestamp, parentHash, baseFee), w, txs);
              && c.outcome.block.transactions == run.included && c.outcome.skipped == run.skipped
              && c.outcome.block.header.gasUsed == run.gas
              && c.outcome.block.header.l1Origin == n.origin
              && c.outcome.block.header.timestamp == timestamp && c.outcome.block.header.baseFee == baseFee
              && c.node.history == n.history + [PutBlock(c.outcome.block)]
  {
    hide NodeOk, Execute, Assemble, CtxOf, Save, Faithful, ReplayBlock, HashDetermines, BlockHashAt, SaveOk,
      ChainEventOk;
    NodeTip(cfg, base, n);
    var w := CommitStart(cfg, base, n, txs, timestamp, parentHash, baseFee, commitOk, writeOk);
    c := ExecuteAndCommitBlock(cfg, n, txs, Wrap64(n.number + 1), timestamp, parentHash, baseFee, commitOk, writeOk);
    WrapSmall(n.number + 1);
    var run, b := AssembleFaithful(cfg, w, txs, n.number + 1, timestamp, parentHash, baseFee, n.origin);
    AssembledHeader(cfg, txs, run, n.number + 1, timestamp, parentHash, baseFee, n.origin);
    SavedKeeps(cfg, base, n, run.world);
    BlockHashIsParentHash(n.number + 1, b.header.stateRoot, timestamp, parentHash);
    GrownKeeps(cfg, base, n, run.world, b);
  }

  lemma NodeTip(cfg: Config, base: World, n: Node)
    requires NodeOk(cfg, base, n)
    ensures TipOk(cfg, base, n)
  {}

  lemma AssembledHeader(
    cfg: Config, txs: seq<Tx>, run: BlockRun, number: u64, timestamp: u64, parentHash: Hash, baseFee: nat, origin: L1Origin)
    ensures var h := Assemble(cfg, txs, run, number, timestamp, parentHash, baseFee, origin).header;
            && h.number == number && h.parentHash == parentHash && h.l1Origin == origin && h.gasUsed == run.gas
            && h.timestamp == timestamp && h.baseFee == baseFee
            && h.stateRoot == RootAfter(cfg, run.world) && h.hash == BlockHash(number, h.stateRoot, timestamp, parentHash)
  {}

  function OriginOf(ws: seq<Write>): L1Origin {
    if LastOrigin(ws).Some? then LastOrigin(ws).value else NO_ORIGIN
  }

  function TipRoot(blocks: seq<L2Block>): Hash {
    if blocks == [] then ZERO_HASH else blocks[|blocks| - 1].header.stateRoot
  }

  /** What a restart loads, in terms of the history. */
  lemma BootForm(cfg: Config, n: Node, genesis: World)
    requires Founded(n) && Numbered(BlocksOf(n.history))
    ensures var blocks := BlocksOf(n.history);
            && |blocks| < U64
            && Boot(cfg, n.states, n.history, genesis) ==
               Node(n.states, n.history, |blocks|, TipRoot(blocks), OriginOf(n.history))
  {
    StoredMetaExact(n.history);
    StoredTipExact(n.history);
    LastBlockIsLast(n.history);
    var blocks := BlocksOf(n.history);
    if blocks != [] {
      assert blocks[|blocks| - 1].header.number == |blocks|;
    }
  }

  lemma RestartKeeps(cfg: Config, base: World, n: Node, genesis: World)
    requires NodeOk(cfg, base, n)
    ensures NodeOk(cfg, BaseAfter(n, Restart(genesis), base), Next(cfg, n, Restart(genesis)))
    ensures Next(cfg, n, Restart(genesis)).history == n.history
  {
    hide ChainOk, Boot;
    var blocks := BlocksOf(n.history);
    ChainNumbered(cfg, base, blocks);
    BootForm(cfg, n, genesis);
    if blocks == [] {
      NoChain(cfg, EMPTY_WORLD);
    }
  }

  lemma NoChain(cfg: Config, base: World)
    ensures ChainOk(cfg, base, []) && Replay(cfg.machine, base, []) == base
  {
    hide Faithful;
    forall k: int
      ensures FaithfulAt(cfg, base, [], k) && Linked([], k)
    {}
  }

  /** Any other write leaves chain and tip alone. */
  lemma RecordKeeps(cfg: Config, base: World, n: Node, w: Write, origin: L1Origin)
    requires NodeOk(cfg, base, n) && (w.PutBatch? || w.PutL1Origin?)
    ensures NodeOk(cfg, base, n.(history := n.history + [w], origin := origin))
    ensures BlocksOf(n.history + [w]) == BlocksOf(n.history)
  {
    HistorySnoc(n.history, w);
  }

  /** The origin in memory is no part of the tip. */
  lemma OriginKeeps(cfg: Config, base: World, n: Node, origin: L1Origin)
    requires NodeOk(cfg, base, n)
    ensures NodeOk(cfg, base, n.(origin := origin))
  {}

  lemma ProduceKeeps(cfg: Config, base: World, n: Node, e: ChainEvent)
    requires NodeOk(cfg, base, n) && ChainEventOk(cfg, n, e) && e.Produce?
    ensures NodeOk(cfg, base, Next(cfg, n, e))
    ensures BlocksOf(n.history) <= BlocksOf(Next(cfg, n, e).history)
  {
    hide NodeOk, ChainEventOk, ExecuteAndCommitBlock, BlockHashAt;
    var parent := BlockHashAt(n.history, n.number);
    if parent.Some? {
      var c := CommitKeeps(cfg, base, n, e.txs, e.timestamp, parent.value, e.baseFee, e.commitOk, e.writeOk);
      if c.outcome.Produced? {
        HistorySnoc(n.history, PutBlock(c.outcome.block));
      }
    }
  }

  lemma StepKeeps(cfg: Config, base: World, n: Node, e: ChainEvent)
    requires NodeOk(cfg, base, n) && ChainEventOk(cfg, n, e)
    ensures NodeOk(cfg, BaseAfter(n, e, base), Next(cfg, n, e))
    ensures BlocksOf(n.history) <= BlocksOf(Next(cfg, n, e).history)
  {
    hide NodeOk, ChainEventOk, ProduceNext, Boot;
    match e
    case Produce(_, _, _, _, _) => ProduceKeeps(cfg, base, n, e);
    case Origin(origin, _) =>
      OriginKeeps(cfg, base, n, origin);
      RecordKeeps(cfg, base, n, PutL1Origin(origin), origin);
    case Submit(batch, _) => RecordKeeps(cfg, base, n, PutBatch(batch), n.origin);
    case Restart(genesis) => RestartKeeps(cfg, base, n, genesis);
  }

  // ---------- runs ----------

  ghost predicate ChainRunOk(cfg: Config, n: Node, es: seq<ChainEvent>) {
    es != [] ==> ChainRunOk(cfg, n, es[..|es| - 1]) && ChainEventOk(cfg, RunChain(cfg, n, es[..|es| - 1]), es[|es| - 1])
  }

  ghost function BaseOf(cfg: Config, n: Node, es: seq<ChainEvent>, base: World): World {
    if es == [] then base
    else BaseAfter(RunChain(cfg, n, es[..|es| - 1]), es[|es| - 1], BaseOf(cfg, n, es[..|es| - 1], base))
  }

  /**
    * After every run of block productions, failed or not, origin updates, batch records
    * and restarts: the blocks on disk are numbered 1, 2, 3, ..., link up, re-execute to
    * their own roots, gas and receipts, only ever grow at the end, and the tip in memory
    * opens the state their re-execution gives.
    */
  lemma {:induction false} RunKeeps(cfg: Config, base: World, n: Node, es: seq<ChainEvent>)
    requires NodeOk(cfg, base, n) && ChainRunOk(cfg, n, es)
    ensures NodeOk(cfg, BaseOf(cfg, n, es, base), RunChain(cfg, n, es))
    ensures BlocksOf(n.history) <= BlocksOf(RunChain(cfg, n, es).history)
  {
    if es != [] {
      var front := es[..|es| - 1];
      RunKeeps(cfg, base, n, front);
      StepKeeps(cfg, BaseOf(cfg, n, front, base), RunChain(cfg, n, front), es[|es| - 1]);
    }
  }

  /** A new database boots into a good node. */
  lemma BootFounds(cfg: Config, genesis: World)
    requires SaveOk(cfg, map[], genesis)
    ensures NodeOk(cfg, Persisted(genesis), Boot(cfg, map[], [], genesis))
  {
    var n := Boot(cfg, map[], [], genesis);
    StoredMetaExact([]);
    HistorySnoc([], PutGenesisRoot(RootAfter(cfg, genesis)));
    assert n.history == [] + [PutGenesisRoot(RootAfter(cfg, genesis))];
    var blocks := BlocksOf(n.history);
    forall k: int
      ensures FaithfulAt(cfg, Persisted(genesis), blocks, k) && Linked(blocks, k)
    {}
  }

  // ---------- restart ----------

  /**
    * Reopening restores number and root of the running node exactly when a block has been
    * written, or the node already ran on the zero root.  The origin comes back exactly
    * when its last successful write is the one in memory.
    */
  lemma RestartRestores(cfg: Config, base: World, n: Node, genesis: World)
    requires NodeOk(cfg, base, n)
    ensures var r := Next(cfg, n, Restart(genesis));
            && r.history == n.history && r.states == n.states
            && r.number == n.number
            && (r.root == n.root <==> BlocksOf(n.history) != [] || n.root == ZERO_HASH)
            && (r.origin == n.origin <==> n.origin == OriginOf(n.history))
  {
    ChainNumbered(cfg, base, BlocksOf(n.history));
    BootForm(cfg, n, genesis);
  }

  /** A node restarted before its first block runs on the empty state: the genesis allocation is out of reach. */
  lemma EarlyRestartLosesGenesis(cfg: Config, base: World, n: Node, genesis: World, a: Address)
    requires NodeOk(cfg, base, n) && BlocksOf(n.history) == []
    ensures var r := Next(cfg, n, Restart(genesis));
            && r.root == ZERO_HASH
            && Open(r.states, r.root) == Some(EMPTY_WORLD) && BalanceOf(EMPTY_WORLD, a) == 0
            && (BalanceOf(base, a) > 0 ==> Open(n.states, n.root) != Open(r.states, r.root))
  {
    ChainNumbered(cfg, base, BlocksOf(n.history));
    BootForm(cfg, n, genesis);
  }

  // ---------- what the chain's own hash index says ----------

  /** All blocks share one hash, so a lookup by the hash of any block answers with the tip. */
  lemma HashIndexNamesTip(cfg: Config, base: World, n: Node, k: nat)
    requires NodeOk(cfg, base, n) && k < |BlocksOf(n.history)|
    ensures var blocks := BlocksOf(n.history);
            var r := ReadBlockByHash(After(n.history), blocks[k].header.hash);
            r == Corrupt || r == Found(blocks[|blocks| - 1])
  {
    var blocks := BlocksOf(n.history);
    var h := blocks[k].header.hash;
    ChainNumbered(cfg, base, blocks);
    LastWithHash(n.history, h);
    ReadBlockByHashExact(n.history, h);
    BlockUnderNumber(n.history, n.number);
  }

  lemma {:induction false} LastWithHash(ws: seq<Write>, h: Hash)
    requires forall k :: 0 <= k < |BlocksOf(ws)| ==> BlocksOf(ws)[k].header.hash == h
    ensures var blocks := BlocksOf(ws);
            LastBlock(ws, (b: L2Block) => b.header.hash == h) ==
            if blocks == [] then None else Some(blocks[|blocks| - 1])
  {
    if ws != [] {
      var front := ws[..|ws| - 1];
      assert forall k :: 0 <= k < |BlocksOf(front)| ==> BlocksOf(front)[k] == BlocksOf(ws)[k];
      LastWithHash(front, h);
      if ws[|ws| - 1].PutBlock? {
        assert BlocksOf(ws)[|BlocksOf(front)|] == ws[|ws| - 1].block;
      }
    }
  }

  /** Production stops on a nil header exactly when a batch record has overwritten the tip's block record. */
  lemma ProductionStopsExactly(
    cfg: Config, base: World, n: Node, txs: seq<Tx>, timestamp: u64, baseFee: nat, commitOk: bool, writeOk: bool)
    requires NodeOk(cfg, base, n)
    ensures var blocks := BlocksOf(n.history);
            ProduceNext(cfg, n, txs, timestamp, baseFee, commitOk, writeOk).None? <==>
              blocks != [] && BlockUnder(n.history, n.number) != Found(blocks[|blocks| - 1])
  {
    hide ChainOk, BlockUnder, ExecuteAndCommitBlock, Open;
    ChainNumbered(cfg, base, BlocksOf(n.history));
    BlockUnderNumber(n.history, n.number);
    NoBlockZero(n.history);
  }

  /** Every batch record carries an index of at least 1, as the batcher gives them. */
  predicate IndexedFromOne(ws: seq<Write>) {
    forall w :: w in ws && w.PutBatch? ==> w.batch.index >= 1
  }

  lemma {:induction false} NoClashBelow(ws: seq<Write>, n: u64)
    requires IndexedFromOne(ws) && n < 29697
    ensures BlockUnder(ws, n) != Corrupt
  {
    if ws != [] {
      NoClashBelow(ws[..|ws| - 1], n);
      assert ws[|ws| - 1] in ws;
      if ws[|ws| - 1].PutBatch? {
        FirstClash(ws[|ws| - 1].batch.index, n);
      }
    }
  }

  /** On a chain of fewer than 29,697 blocks no block record is ever damaged, so production never stops. */
  lemma IntactBelowFirstClash(
    cfg: Config, base: World, n: Node, txs: seq<Tx>, timestamp: u64, baseFee: nat, commitOk: bool, writeOk: bool)
    requires NodeOk(cfg, base, n) && IndexedFromOne(n.history) && |BlocksOf(n.history)| < 29697
    ensures var blocks := BlocksOf(n.history);
            forall k: u64 :: 1 <= k <= |blocks| ==> BlockUnder(n.history, k) == Found(blocks[k - 1])
    ensures ProduceNext(cfg, n, txs, timestamp, baseFee, commitOk, writeOk).Some?
  {
    var blocks := BlocksOf(n.history);
    ChainNumbered(cfg, base, blocks);
    forall k: u64 | 1 <= k <= |blocks|
      ensures BlockUnder(n.history, k) == Found(blocks[k - 1])
    {
      NoClashBelow(n.history, k);
      BlockUnderNumber(n.history, k);
    }
    ProductionStopsExactly(cfg, base, n, txs, timestamp, baseFee, commitOk, writeOk);
  }
}
