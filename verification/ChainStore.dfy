/** Blocks, batches, and what the chain database answers after any history of writes. */
module ChainStore {
  import opened Common
  import opened BigEndian
  import opened ChainKeys
  import opened Transactions
  import opened Execution

  datatype L1Origin = L1Origin(blockNumber: u64, blockHash: Hash, timestamp: u64)

  datatype Header = Header(
    number: u64,
    hash: Hash,
    parentHash: Hash,
    timestamp: u64,
    stateRoot: Hash,
    gasUsed: u64,
    gasLimit: u64,
    txCount: nat,
    sequencer: Address,
    l1Origin: L1Origin,
    baseFee: nat)

  datatype L2Block = L2Block(header: Header, transactions: seq<Tx>, receipts: seq<Receipt>)

  datatype BatchStatus = Submitted | Confirmed

  datatype Batch = Batch(
    index: u64,
    startBlock: u64,
    endBlock: u64,
    blockCount: int,
    l1TxHash: Hash,
    sizeBytes: nat,
    status: BatchStatus)

  /** A stored value, tagged with what was serialised into it: the codecs lose nothing. */
  datatype Record =
    | Raw(bytes: Bytes)
    | BlockJson(block: L2Block)
    | BatchJson(batch: Batch)
    | TxRlp(tx: Tx)
    | ReceiptJson(receipt: Receipt)
    | OriginJson(origin: L1Origin)

  type Disk = map<Bytes, Record>

  datatype Put = Put(key: ChainKey, record: Record)

  datatype Write =
    | PutBlock(block: L2Block)
    | PutBatch(batch: Batch)
    | PutGenesisRoot(root: Hash)
    | PutL1Origin(origin: L1Origin)

  // ---------- writing ----------

  function TxPuts(txs: seq<Tx>, number: u64): seq<Put> {
    if txs == [] then []
    else
      var tx := txs[|txs| - 1];
      TxPuts(txs[..|txs| - 1], number) +
      [Put(TxKey(tx.hash), TxRlp(tx)), Put(TxBlockKey(tx.hash), Raw(Minimal(number)))]
  }

  function ReceiptPuts(rs: seq<Receipt>): seq<Put> {
    if rs == [] then []
    else
      var r := rs[|rs| - 1];
      ReceiptPuts(rs[..|rs| - 1]) + [Put(ReceiptKey(r.txHash), ReceiptJson(r))]
  }

  /** The puts of one write, in order; they reach the disk together. */
  function Puts(w: Write): seq<Put> {
    match w
    case PutBlock(b) =>
      var n := b.header.number;
      [Put(BlockKey(n), BlockJson(b)), Put(BlockHashKey(b.header.hash), Raw(Minimal(n)))]
      + TxPuts(b.transactions, n) + ReceiptPuts(b.receipts)
      + [Put(CurrentBlockKey, Raw(Minimal(n))), Put(LatestRootKey, Raw(b.header.stateRoot))]
    case PutBatch(b) => [Put(BatchKey(b.index), BatchJson(b)), Put(LatestBatchKey, Raw(Minimal(b.index)))]
    case PutGenesisRoot(root) => [Put(GenesisRootKey, Raw(root))]
    case PutL1Origin(o) => [Put(L1OriginKey, OriginJson(o))]
  }

  function PutAll(d: Disk, ps: seq<Put>): Disk {
    if ps == [] then d
    else
      var p := ps[|ps| - 1];
      PutAll(d, ps[..|ps| - 1])[Encode(p.key) := p.record]
  }

  function Apply(d: Disk, w: Write): Disk {
    PutAll(d, Puts(w))
  }

  /** The disk after a history of writes to an empty database. */
  function After(ws: seq<Write>): Disk {
    if ws == [] then map[] else Apply(After(ws[..|ws| - 1]), ws[|ws| - 1])
  }

  // ---------- reading ----------

  /** `Corrupt` stands for a record of another class: it decodes to a value without its contents. */
  datatype Lookup<+T> = Missing | Found(value: T) | Corrupt

  function Get(d: Disk, k: ChainKey): Option<Record> {
    if Encode(k) in d then Some(d[Encode(k)]) else None
  }

  /** big.Int.SetBytes(...).Uint64() of a stored number. */
  function Number(r: Record): u64 {
    if r.Raw? then Wrap64(Value(r.bytes)) else 0
  }

  function AsBlock(r: Option<Record>): Lookup<L2Block> {
    match r
    case None => Missing
    case Some(BlockJson(b)) => Found(b)
    case Some(_) => Corrupt
  }

  function AsBatch(r: Option<Record>): Lookup<Batch> {
    match r
    case None => Missing
    case Some(BatchJson(b)) => Found(b)
    case Some(_) => Corrupt
  }

  function ReadBlock(d: Disk, n: u64): Lookup<L2Block> {
    AsBlock(Get(d, BlockKey(n)))
  }

  /** The index gives the number's bytes; the block is read under those bytes. */
  function ReadBlockByHash(d: Disk, h: Hash): Lookup<L2Block> {
    match Get(d, BlockHashKey(h))
    case None => Missing
    case Some(Raw(bytes)) => AsBlock(if Ascii("b") + bytes in d then Some(d[Ascii("b") + bytes]) else None)
    case Some(_) => Corrupt
  }

  function ReadTransaction(d: Disk, h: Hash): Lookup<Tx> {
    match Get(d, TxKey(h))
    case None => Missing
    case Some(TxRlp(tx)) => Found(tx)
    case Some(_) => Corrupt
  }

  function ReadReceipt(d: Disk, h: Hash): Lookup<Receipt> {
    match Get(d, ReceiptKey(h))
    case None => Missing
    case Some(ReceiptJson(r)) => Found(r)
    case Some(_) => Corrupt
  }

  function ReadTxBlockNumber(d: Disk, h: Hash): Option<u64> {
    match Get(d, TxBlockKey(h))
    case None => None
    case Some(r) => Some(Number(r))
  }

  function ReadBatch(d: Disk, i: u64): Lookup<Batch> {
    AsBatch(Get(d, BatchKey(i)))
  }

  function ReadLatestBatch(d: Disk): Lookup<Batch> {
    match Get(d, LatestBatchKey)
    case None => Missing
    case Some(Raw(bytes)) => AsBatch(if Ascii("bt") + bytes in d then Some(d[Ascii("bt") + bytes]) else None)
    case Some(_) => Corrupt
  }

  /** The current block number a freshly opened database starts from. */
  function StoredNumber(d: Disk): u64 {
    match Get(d, CurrentBlockKey)
    case Some(Raw(bytes)) => if bytes == [] then 0 else Wrap64(Value(bytes))
    case _ => 0
  }

  /** The state root a freshly opened database starts from. */
  function StoredRoot(d: Disk): Hash {
    match Get(d, LatestRootKey)
    case Some(Raw(bytes)) => if |bytes| == 32 then bytes else ZERO_HASH
    case _ => ZERO_HASH
  }

  function GenesisRoot(d: Disk): Option<Hash> {
    match Get(d, GenesisRootKey)
    case Some(Raw(bytes)) => if |bytes| == 32 then Some(bytes) else None
    case _ => None
  }

  function StoredOrigin(d: Disk): Option<L1Origin> {
    match Get(d, L1OriginKey)
    case Some(OriginJson(o)) => Some(o)
    case _ => None
  }
}
