/** Laws of whole chains: money, nonces, gas and L1 origins over every block ever stored. */
module ChainLaws {
  import opened Common
  import opened Transactions
  import opened Ledger
  import opened Execution
  import opened BlockProofs
  import opened ChainStore
  import opened ChainStoreProofs
  import opened ChainState
  import opened ChainProofs

  /** Every transaction of a chain, in order. */
  function TxsIn(blocks: seq<L2Block>): seq<Tx> {
    if blocks == [] then [] else TxsIn(blocks[..|blocks| - 1]) + blocks[|blocks| - 1].transactions
  }

  lemma FrontAt(cfg: Config, base: World, blocks: seq<L2Block>, k: int)
    requires ChainOk(cfg, base, blocks) && blocks != []
    ensures FaithfulAt(cfg, base, blocks[..|blocks| - 1], k) && Linked(blocks[..|blocks| - 1], k)
  {
    hide Faithful;
    var front := blocks[..|blocks| - 1];
    assert FaithfulAt(cfg, base, blocks, k) && Linked(blocks, k);
    if 0 <= k < |front| {
      assert front[..k] == blocks[..k];
    }
  }

  lemma ChainFront(cfg: Config, base: World, blocks: seq<L2Block>)
    requires ChainOk(cfg, base, blocks) && blocks != []
    ensures var front, b := blocks[..|blocks| - 1], blocks[|blocks| - 1];
            && ChainOk(cfg, base, front)
            && Faithful(cfg, Replay(cfg.machine, base, front), b)
            && TxsIn(blocks) == TxsIn(front) + b.transactions
  {
    hide Faithful;
    var front := blocks[..|blocks| - 1];
    assert FaithfulAt(cfg, base, blocks, |front|);
    forall k: int
      ensures FaithfulAt(cfg, base, front, k) && Linked(front, k)
    {
      FrontAt(cfg, base, blocks, k);
    }
  }

  lemma KeysOfParts(m: Machine, a: seq<Tx>, b: seq<Tx>)
    ensures KeyHeld(m, a + b) <==> KeyHeld(m, a) && KeyHeld(m, b)
  {
    if KeyHeld(m, a + b) {
      assert forall tx :: tx in a || tx in b ==> tx in a + b;
    }
  }

  /** What the commits of a chain take out of circulation with self-destructed accounts. */
  ghost function DeletedIn(m: Machine, base: World, blocks: seq<L2Block>): int {
    if blocks == [] then 0
    else
      var front := blocks[..|blocks| - 1];
      DeletedIn(m, base, front) + DeletedBalance(ReplayBlock(m, Replay(m, base, front), blocks[|blocks| - 1]).world)
  }

  /**
    * A chain creates no money over all its blocks; if the EVM burns nothing, what is
    * missing at the end is exactly what the commits deleted with self-destructed accounts.
    */
  lemma {:induction false} ChainConserves(cfg: Config, base: World, blocks: seq<L2Block>)
    requires ChainOk(cfg, base, blocks)
    requires WellBehaved(cfg.machine) && KeyHeld(cfg.machine, TxsIn(blocks)) && WorldOk(cfg.machine, base)
    ensures var total, deleted := Total(Replay(cfg.machine, base, blocks)), DeletedIn(cfg.machine, base, blocks);
            && deleted >= 0 && total + deleted <= Total(base)
            && (BurnsNothing(cfg.machine) ==> total + deleted == Total(base))
    ensures WorldOk(cfg.machine, Replay(cfg.machine, base, blocks))
    ensures forall a :: cfg.machine.eoa(a) && a !in base.destructed ==> a !in Replay(cfg.machine, base, blocks).destructed
  {
    if blocks != [] {
      var front, b := blocks[..|blocks| - 1], blocks[|blocks| - 1];
      ChainFront(cfg, base, blocks);
      KeysOfParts(cfg.machine, TxsIn(front), b.transactions);
      ChainConserves(cfg, base, front);
      var w := Replay(cfg.machine, base, front);
      BlockConserves(cfg.machine, CtxOfHeader(b.header), w, b.transactions);
      CommitDeletesExactly(ReplayBlock(cfg.machine, w, b).world);
    }
  }

  /**
    * Over all blocks together, every sender's nonces count up by one from the nonce its
    * account had at the start, and the account ends just past the last of them.
    */
  lemma {:induction false} ChainNonces(cfg: Config, base: World, blocks: seq<L2Block>, s: Address)
    requires ChainOk(cfg, base, blocks)
    requires WellBehaved(cfg.machine) && KeyHeld(cfg.machine, TxsIn(blocks)) && WorldOk(cfg.machine, base)
    requires NoncesFit(TxsIn(blocks)) && cfg.machine.eoa(s) && s !in base.destructed
    ensures var ns := NoncesOf(s, TxsIn(blocks));
            && CountUpFrom(NonceOf(base, s), ns)
            && NonceOf(Replay(cfg.machine, base, blocks), s) == NonceOf(base, s) + |ns|
  {
    if blocks != [] {
      var front, b := blocks[..|blocks| - 1], blocks[|blocks| - 1];
      ChainFront(cfg, base, blocks);
      KeysOfParts(cfg.machine, TxsIn(front), b.transactions);
      NoncesOfParts(TxsIn(front), b.transactions);
      hide ChainOk, WellBehaved, KeyHeld, NoncesFit, CountUpFrom, NonceOf, Persisted;
      ChainNonces(cfg, base, front, s);
      ChainConserves(cfg, base, front);
      var w := Replay(cfg.machine, base, front);
      BlockNonces(cfg.machine, CtxOfHeader(b.header), w, b.transactions, s);
      BlockConserves(cfg.machine, CtxOfHeader(b.header), w, b.transactions);
      PersistedExactly(ReplayBlock(cfg.machine, w, b).world, s, ZERO_HASH);
      NoncesOfAppend(s, TxsIn(front), b.transactions);
      CountUpAppend(NonceOf(base, s), NoncesOf(s, TxsIn(front)), NoncesOf(s, b.transactions));
    }
  }

  lemma CountUpAppend(first: nat, a: seq<u64>, b: seq<u64>)
    requires CountUpFrom(first, a) && CountUpFrom(first + |a|, b)
    ensures CountUpFrom(first, a + b)
  {}

  lemma NoncesOfParts(a: seq<Tx>, b: seq<Tx>)
    requires NoncesFit(a + b)
    ensures NoncesFit(a) && NoncesFit(b)
  {
    assert forall tx :: tx in a || tx in b ==> tx in a + b;
  }

  /** At most once: over the whole chain no sender's nonce is executed twice, however often a transaction is submitted. */
  lemma ExecutedAtMostOnce(cfg: Config, base: World, blocks: seq<L2Block>, i: nat, j: nat)
    requires ChainOk(cfg, base, blocks)
    requires WellBehaved(cfg.machine) && KeyHeld(cfg.machine, TxsIn(blocks)) && WorldOk(cfg.machine, base)
    requires NoncesFit(TxsIn(blocks)) && base.destructed == {}
    requires i < j < |TxsIn(blocks)| && TxsIn(blocks)[i].from == TxsIn(blocks)[j].from
    requires TxsIn(blocks)[i].from.Some?
    ensures TxsIn(blocks)[i].nonce < TxsIn(blocks)[j].nonce
    ensures TxsIn(blocks)[i] != TxsIn(blocks)[j]
  {
    var s := TxsIn(blocks)[i].from.value;
    assert TxsIn(blocks)[i] in TxsIn(blocks);
    ChainNonces(cfg, base, blocks, s);
    CountUpIsOnce(s, NonceOf(base, s), TxsIn(blocks), i, j);
  }

  lemma GasSumSame(a: seq<Receipt>, b: seq<Receipt>)
    requires SameUpToIndex(a, b)
    ensures GasSum(a) == GasSum(b)
    ensures RunningTotals(b, 0) ==> RunningTotals(a, 0)
  {
    GasSumFollows(a, b);
    forall k | 0 <= k < |a|
      ensures a[k].cumulativeGasUsed == b[k].cumulativeGasUsed && GasSum(a[..k + 1]) == GasSum(b[..k + 1])
    {
      assert Unindexed(a[k]).cumulativeGasUsed == Unindexed(b[k]).cumulativeGasUsed;
      GasSumFollows(a[..k + 1], b[..k + 1]);
    }
  }

  lemma {:induction false} GasSumFollows(a: seq<Receipt>, b: seq<Receipt>)
    requires SameUpToIndex(a, b)
    ensures GasSum(a) == GasSum(b)
  {
    if a != [] {
      assert Unindexed(a[0]).gasUsed == Unindexed(b[0]).gasUsed;
      GasSumFollows(a[1..], b[1..]);
    }
  }

  /** Receipts pair up by position, cumulative gas is the prefix sum and ends in GasUsed, within 30M. */
  ghost predicate GasOk(b: L2Block) {
    && Aligned(b.transactions, b.receipts)
    && RunningTotals(b.receipts, 0)
    && b.header.gasUsed == GasSum(b.receipts) <= BLOCK_GAS
  }

  lemma FaithfulGas(cfg: Config, w: World, b: L2Block)
    requires Faithful(cfg, w, b)
    requires WellBehaved(cfg.machine) && KeyHeld(cfg.machine, b.transactions) && WorldOk(cfg.machine, w)
    requires GasFits(b.transactions, BLOCK_GAS)
    ensures GasOk(b)
  {
    BlockGas(cfg.machine, CtxOfHeader(b.header), w, b.transactions);
    StampedGas(b, ReplayBlock(cfg.machine, w, b).receipts);
  }

  lemma GasFitsParts(a: seq<Tx>, b: seq<Tx>, limit: u64)
    requires GasFits(a + b, limit)
    ensures GasFits(a, limit) && GasFits(b, limit)
  {
    assert forall tx :: tx in a || tx in b ==> tx in a + b;
  }

  lemma LastBlockGas(cfg: Config, base: World, blocks: seq<L2Block>)
    requires ChainOk(cfg, base, blocks) && blocks != []
    requires WellBehaved(cfg.machine) && KeyHeld(cfg.machine, TxsIn(blocks)) && WorldOk(cfg.machine, base)
    requires GasFits(TxsIn(blocks), BLOCK_GAS)
    ensures GasOk(blocks[|blocks| - 1])
  {
    hide GasOk;
    var front, b := blocks[..|blocks| - 1], blocks[|blocks| - 1];
    ChainFront(cfg, base, blocks);
    KeysOfParts(cfg.machine, TxsIn(front), b.transactions);
    GasFitsParts(TxsIn(front), b.transactions, BLOCK_GAS);
    ChainConserves(cfg, base, front);
    FaithfulGas(cfg, Replay(cfg.machine, base, front), b);
  }

  /** Gas is accounted for in every stored block. */
  lemma {:induction false} StoredBlockGas(cfg: Config, base: World, blocks: seq<L2Block>, k: nat)
    requires ChainOk(cfg, base, blocks) && k < |blocks|
    requires WellBehaved(cfg.machine) && KeyHeld(cfg.machine, TxsIn(blocks)) && WorldOk(cfg.machine, base)
    requires GasFits(TxsIn(blocks), BLOCK_GAS)
    ensures GasOk(blocks[k])
    decreases |blocks|
  {
    hide GasOk;
    var front, b := blocks[..|blocks| - 1], blocks[|blocks| - 1];
    if k == |front| {
      LastBlockGas(cfg, base, blocks);
    } else {
      ChainFront(cfg, base, blocks);
      KeysOfParts(cfg.machine, TxsIn(front), b.transactions);
      GasFitsParts(TxsIn(front), b.transactions, BLOCK_GAS);
      StoredBlockGas(cfg, base, front, k);
      assert front[k] == blocks[k];
    }
  }

  lemma StampedGas(b: L2Block, rs: seq<Receipt>)
    requires Stamped(b) && SameUpToIndex(b.receipts, SealAll(rs, b.header.hash, b.header.number))
    requires RunningTotals(rs, 0)
    ensures Aligned(b.transactions, b.receipts)
    ensures RunningTotals(b.receipts, 0) && GasSum(b.receipts) == GasSum(rs)
  {
    var sealed := SealAll(rs, b.header.hash, b.header.number);
    SealedGas(rs, sealed);
    GasSumSame(b.receipts, sealed);
  }

  lemma SealedGas(rs: seq<Receipt>, sealed: seq<Receipt>)
    requires |rs| == |sealed|
    requires forall k :: 0 <= k < |rs| ==>
               sealed[k].gasUsed == rs[k].gasUsed && sealed[k].cumulativeGasUsed == rs[k].cumulativeGasUsed
    ensures GasSum(sealed) == GasSum(rs)
    ensures RunningTotals(rs, 0) ==> RunningTotals(sealed, 0)
  {
    SealedGasSum(rs, sealed);
    forall k | 0 <= k < |rs|
      ensures sealed[k].cumulativeGasUsed == rs[k].cumulativeGasUsed
      ensures GasSum(sealed[..k + 1]) == GasSum(rs[..k + 1])
    {
      SealedGasSum(rs[..k + 1], sealed[..k + 1]);
    }
  }

  lemma {:induction false} SealedGasSum(rs: seq<Receipt>, sealed: seq<Receipt>)
    requires |rs| == |sealed|
    requires forall k :: 0 <= k < |rs| ==> sealed[k].gasUsed == rs[k].gasUsed
    ensures GasSum(sealed) == GasSum(rs)
  {
    if rs != [] {
      SealedGasSum(rs[1..], sealed[1..]);
    }
  }

  // ---------- L1 origins ----------

  ghost predicate OriginsRise(blocks: seq<L2Block>, bound: nat) {
    && (forall i, j :: 0 <= i < j < |blocks| ==>
          blocks[i].header.l1Origin.blockNumber <= blocks[j].header.l1Origin.blockNumber)
    && (forall i :: 0 <= i < |blocks| ==> blocks[i].header.l1Origin.blockNumber <= bound)
  }

  /** The L1 client never reports an older block. */
  predicate ReportsRise(n: Node, e: ChainEvent) {
    e.Origin? ==> e.origin.blockNumber >= n.origin.blockNumber
  }

  ghost predicate RunReportsRise(cfg: Config, n: Node, es: seq<ChainEvent>) {
    es != [] ==> RunReportsRise(cfg, n, es[..|es| - 1]) && ReportsRise(RunChain(cfg, n, es[..|es| - 1]), es[|es| - 1])
  }

  /** The origin in memory is the one a restart would load. */
  ghost predicate OriginStored(n: Node) {
    n.origin == OriginOf(n.history)
  }

  /** Only a failed origin write separates memory from disk. */
  lemma StepStoresOrigin(cfg: Config, base: World, n: Node, e: ChainEvent)
    requires NodeOk(cfg, base, n) && ChainEventOk(cfg, n, e)
    requires OriginStored(n) && !(e.Origin? && !e.writeOk)
    ensures OriginStored(Next(cfg, n, e))
  {
    hide NodeOk;
    match e
    case Produce(_, _, _, _, _) => ProduceOrigins(cfg, base, n, e);
    case Origin(origin, _) => HistorySnoc(n.history, PutL1Origin(origin));
    case Submit(batch, _) => HistorySnoc(n.history, PutBatch(batch));
    case Restart(genesis) => RestartOrigin(cfg, base, n, genesis);
  }

  lemma RestartOrigin(cfg: Config, base: World, n: Node, genesis: World)
    requires NodeOk(cfg, base, n)
    ensures var r := Next(cfg, n, Restart(genesis)); r.history == n.history && r.origin == OriginOf(n.history)
  {
    hide Boot, ChainOk, LastOrigin;
    ChainNumbered(cfg, base, BlocksOf(n.history));
    BootForm(cfg, n, genesis);
  }

  /** Until an origin write fails, memory and disk agree on it. */
  lemma {:induction false} RunStoresOrigin(cfg: Config, base: World, n: Node, es: seq<ChainEvent>)
    requires NodeOk(cfg, base, n) && ChainRunOk(cfg, n, es) && OriginStored(n)
    requires forall i :: 0 <= i < |es| && es[i].Origin? ==> es[i].writeOk
    ensures OriginStored(RunChain(cfg, n, es))
  {
    hide NodeOk, OriginStored;
    if es != [] {
      var front := es[..|es| - 1];
      assert forall i :: 0 <= i < |front| ==> front[i] == es[i];
      RunStoresOrigin(cfg, base, n, front);
      RunKeeps(cfg, base, n, front);
      StepStoresOrigin(cfg, BaseOf(cfg, n, front, base), RunChain(cfg, n, front), es[|es| - 1]);
    }
  }

  /** A failed write of a new origin followed by a restart goes back to the origin on disk. */
  lemma FailedWriteForgets(cfg: Config, base: World, n: Node, origin: L1Origin, genesis: World)
    requires NodeOk(cfg, base, n) && OriginStored(n)
    ensures var before := Next(cfg, n, Origin(origin, false));
            && before.origin == origin
            && Next(cfg, before, Restart(genesis)).origin == n.origin
  {
    RestartOrigin(cfg, base, n.(origin := origin), genesis);
  }

  lemma ProduceOrigins(cfg: Config, base: World, n: Node, e: ChainEvent)
    requires NodeOk(cfg, base, n) && ChainEventOk(cfg, n, e) && e.Produce?
    ensures var n' := Next(cfg, n, e);
            && n'.origin == n.origin && LastOrigin(n'.history) == LastOrigin(n.history)
            && (OriginsRise(BlocksOf(n.history), n.origin.blockNumber) ==>
                  OriginsRise(BlocksOf(n'.history), n.origin.blockNumber))
  {
    hide NodeOk, OriginsRise, ChainEventOk, BlockHashAt, Execute, ExecuteAndCommitBlock;
    var parent := BlockHashAt(n.history, n.number);
    if parent.None? {
      assert Next(cfg, n, e) == n;
    } else {
      var c := CommitKeeps(cfg, base, n, e.txs, e.timestamp, parent.value, e.baseFee, e.commitOk, e.writeOk);
      assert Next(cfg, n, e) == c.node;
      if c.outcome.Produced? {
        HistorySnoc(n.history, PutBlock(c.outcome.block));
        OriginsSnoc(BlocksOf(n.history), c.outcome.block, n.origin.blockNumber);
      }
    }
  }

  lemma OriginsSnoc(blocks: seq<L2Block>, b: L2Block, bound: nat)
    requires b.header.l1Origin.blockNumber == bound
    ensures OriginsRise(blocks, bound) ==> OriginsRise(blocks + [b], bound)
  {}

  lemma StepOrigins(cfg: Config, base: World, n: Node, e: ChainEvent)
    requires NodeOk(cfg, base, n) && ChainEventOk(cfg, n, e) && ReportsRise(n, e)
    requires e.Restart? ==> OriginStored(n)
    requires OriginsRise(BlocksOf(n.history), n.origin.blockNumber)
    ensures var n' := Next(cfg, n, e); OriginsRise(BlocksOf(n'.history), n'.origin.blockNumber)
  {
    hide NodeOk;
    match e
    case Produce(_, _, _, _, _) => ProduceOrigins(cfg, base, n, e);
    case Origin(origin, _) => HistorySnoc(n.history, PutL1Origin(origin));
    case Submit(batch, _) => HistorySnoc(n.history, PutBatch(batch));
    case Restart(genesis) => RestartOrigin(cfg, base, n, genesis);
  }

  /** No restart comes after a failed origin write. */
  predicate RestartsAfterStores(es: seq<ChainEvent>) {
    forall i, j :: 0 <= i < j < |es| && es[j].Restart? && es[i].Origin? ==> es[i].writeOk
  }

  /**
    * If the L1 client's block numbers never decrease, neither do the origins recorded in the
    * blocks, over any run in which no restart follows a failed origin write.
    */
  lemma {:induction false} RunOrigins(cfg: Config, base: World, n: Node, es: seq<ChainEvent>)
    requires NodeOk(cfg, base, n) && ChainRunOk(cfg, n, es)
    requires RunReportsRise(cfg, n, es) && RestartsAfterStores(es)
    requires OriginStored(n) && OriginsRise(BlocksOf(n.history), n.origin.blockNumber)
    ensures var n' := RunChain(cfg, n, es); OriginsRise(BlocksOf(n'.history), n'.origin.blockNumber)
  {
    hide NodeOk, OriginStored, OriginsRise;
    if es != [] {
      var front, last := es[..|es| - 1], es[|es| - 1];
      assert forall i :: 0 <= i < |front| ==> front[i] == es[i];
      RunOrigins(cfg, base, n, front);
      RunKeeps(cfg, base, n, front);
      if last.Restart? {
        RunStoresOrigin(cfg, base, n, front);
      }
      StepOrigins(cfg, BaseOf(cfg, n, front, base), RunChain(cfg, n, front), last);
    }
  }
}
