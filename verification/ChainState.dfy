/**
  * The state manager as a value: committed states by root, the history of database
  * writes, and the tip in memory; and what producing a block or restarting does to them.
  */
module ChainState {
  import opened Common
  import opened BigEndian
  import opened Transactions
  import opened Ledger
  import opened Execution
  import opened ChainStore
  import opened ChainStoreProofs

  /** Whatever gas limit the batch was popped under, execution uses this one. */
  const BLOCK_GAS: u64 := 30_000_000

  const EMPTY_WORLD: World := World(map[], map[], map[], map[], map[], map[], {}, {}, {}, 0, 0)

  const NO_ORIGIN: L1Origin := L1Origin(0, ZERO_HASH, 0)

  /** `rootOf` stands for the Merkle Patricia Trie root of a state. */
  datatype Config = Config(machine: Machine, sequencer: Address, rootOf: World -> Hash)

  datatype Node = Node(states: map<Hash, World>, history: seq<Write>, number: u64, root: Hash, origin: L1Origin)

  // ---------- the state store ----------

  /** The zero root opens the empty state. */
  function Open(states: map<Hash, World>, root: Hash): Option<World> {
    if root == ZERO_HASH then Some(EMPTY_WORLD)
    else if root in states then Some(states[root])
    else None
  }

  function RootAfter(cfg: Config, w: World): Hash {
    cfg.rootOf(Persisted(w))
  }

  function Save(cfg: Config, states: map<Hash, World>, w: World): map<Hash, World> {
    states[RootAfter(cfg, w) := Persisted(w)]
  }

  // ---------- block assembly ----------

  function Zeros(n: nat): (b: Bytes)
    ensures |b| == n
  {
    seq(n, _ => 0)
  }

  /** common.BytesToHash keeps the last 32 bytes, and puts zeros in front of fewer. */
  function BytesToHash(b: Bytes): Hash {
    if |b| >= 32 then b[|b| - 32..] else Zeros(32 - |b|) + b
  }

  function BlockHash(number: u64, root: Hash, timestamp: u64, parentHash: Hash): Hash {
    var r: Bytes, p: Bytes := root, parentHash;
    BytesToHash(Minimal(number) + r + Minimal(timestamp) + p)
  }

  function CtxOf(cfg: Config, number: u64, timestamp: u64, parentHash: Hash, baseFee: nat): BlockCtx {
    BlockCtx(number, timestamp, cfg.sequencer, BLOCK_GAS, baseFee, parentHash)
  }

  /** Block hash, number and position are stamped over what the executor wrote. */
  function Sealed(r: Receipt, hash: Hash, number: u64, i: nat): Receipt {
    r.(blockHash := hash, blockNumber := number, txIndex := i)
  }

  function SealAll(rs: seq<Receipt>, hash: Hash, number: u64): (s: seq<Receipt>)
    ensures |s| == |rs|
  {
    seq(|rs|, i requires 0 <= i < |rs| => Sealed(rs[i], hash, number, i))
  }

  function FindTx(txs: seq<Tx>, h: Hash): Option<Tx> {
    if txs == [] then None
    else if txs[0].hash == h then Some(txs[0])
    else FindTx(txs[1..], h)
  }

  /** For each receipt, the first transaction offered with its hash. */
  function Matching(txs: seq<Tx>, rs: seq<Receipt>): seq<Tx> {
    if rs == [] then []
    else
      var found := FindTx(txs, rs[|rs| - 1].txHash);
      Matching(txs, rs[..|rs| - 1]) + (if found.Some? then [found.value] else [])
  }

  /** Which block the run of the executor is made into. */
  function Assemble(
    cfg: Config, txs: seq<Tx>, run: BlockRun,
    number: u64, timestamp: u64, parentHash: Hash, baseFee: nat, origin: L1Origin): L2Block
  {
    var root := RootAfter(cfg, run.world);
    var hash := BlockHash(number, root, timestamp, parentHash);
    var executed := Matching(txs, run.receipts);
    L2Block(
      Header(number, hash, parentHash, timestamp, root, run.gas, BLOCK_GAS, |executed|, cfg.sequencer, origin, baseFee),
      executed,
      SealAll(run.receipts, hash, number))
  }

  // ---------- operations ----------

  datatype Outcome = Produced(block: L2Block, skipped: seq<Tx>) | Failed

  datatype Committed = Committed(node: Node, outcome: Outcome)

  /** `commitOk` and `writeOk` say whether the state commit and the database write get through. */
  function ExecuteAndCommitBlock(
    cfg: Config, n: Node, txs: seq<Tx>, number: u64, timestamp: u64, parentHash: Hash, baseFee: nat,
    commitOk: bool, writeOk: bool): Committed
  {
    match Open(n.states, n.root)
    case None => Committed(n, Failed)
    case Some(w) =>
      if !commitOk then Committed(n, Failed)
      else
        var run := Execute(cfg.machine, CtxOf(cfg, number, timestamp, parentHash, baseFee), w, txs);
        var saved := n.(states := Save(cfg, n.states, run.world));
        if !writeOk then Committed(saved, Failed)
        else
          var block := Assemble(cfg, txs, run, number, timestamp, parentHash, baseFee, n.origin);
          Committed(
            saved.(history := n.history + [PutBlock(block)], number := number, root := block.header.stateRoot),
            Produced(block, run.skipped))
  }

  /** The hash of a block by number; `None` is the nil header of a record that is not a block. */
  function BlockHashAt(ws: seq<Write>, number: u64): Option<Hash> {
    match BlockUnder(ws, number)
    case Missing => Some(ZERO_HASH)
    case Found(b) => Some(b.header.hash)
    case Corrupt => None
  }

  function SetL1Origin(n: Node, origin: L1Origin, writeOk: bool): Node {
    n.(origin := origin, history := if writeOk then n.history + [PutL1Origin(origin)] else n.history)
  }

  function AddBatch(n: Node, batch: Batch, writeOk: bool): Node {
    n.(history := if writeOk then n.history + [PutBatch(batch)] else n.history)
  }

  /** NewManager: from the disk if a genesis root is stored there, from genesis otherwise. */
  function Boot(cfg: Config, states: map<Hash, World>, history: seq<Write>, genesis: World): Node {
    var disk := After(history);
    var stored := GenesisRoot(disk);
    if stored.Some? && stored.value != ZERO_HASH then
      var origin := StoredOrigin(disk);
      Node(states, history, StoredNumber(disk), StoredRoot(disk), if origin.Some? then origin.value else NO_ORIGIN)
    else
      var root := RootAfter(cfg, genesis);
      Node(Save(cfg, states, genesis), history + [PutGenesisRoot(root)], 0, root, NO_ORIGIN)
  }

  // ---------- runs ----------

  datatype ChainEvent =
    | Produce(txs: seq<Tx>, timestamp: u64, baseFee: nat, commitOk: bool, writeOk: bool)
    | Origin(origin: L1Origin, writeOk: bool)
    | Submit(batch: Batch, writeOk: bool)
    | Restart(genesis: World)

  /** What the producer asks for: the next number on top of the hash stored under the current one. */
  function ProduceNext(
    cfg: Config, n: Node, txs: seq<Tx>, timestamp: u64, baseFee: nat, commitOk: bool, writeOk: bool): Option<Committed>
  {
    match BlockHashAt(n.history, n.number)
    case None => None
    case Some(parentHash) =>
      Some(ExecuteAndCommitBlock(cfg, n, txs, Wrap64(n.number + 1), timestamp, parentHash, baseFee, commitOk, writeOk))
  }

  /** A nil header stops the process before anything is executed. */
  function Next(cfg: Config, n: Node, e: ChainEvent): Node {
    match e
    case Produce(txs, timestamp, baseFee, commitOk, writeOk) =>
      (var c := ProduceNext(cfg, n, txs, timestamp, baseFee, commitOk, writeOk);
       if c.Some? then c.value.node else n)
    case Origin(origin, writeOk) => SetL1Origin(n, origin, writeOk)
    case Submit(batch, writeOk) => AddBatch(n, batch, writeOk)
    case Restart(genesis) => Boot(cfg, n.states, n.history, genesis)
  }

  function RunChain(cfg: Config, n: Node, es: seq<ChainEvent>): Node {
    if es == [] then n else Next(cfg, RunChain(cfg, n, es[..|es| - 1]), es[|es| - 1])
  }

  function BlocksOf(ws: seq<Write>): seq<L2Block> {
    if ws == [] then []
    else if ws[|ws| - 1].PutBlock? then BlocksOf(ws[..|ws| - 1]) + [ws[|ws| - 1].block]
    else BlocksOf(ws[..|ws| - 1])
  }
}
