/** After any history of writes, every read returns what was last written under its key. */
module ChainStoreProofs {
  import opened Common
  import opened BigEndian
  import opened ChainKeys
  import opened Transactions
  import opened Execution
  import opened ChainStore

  /** The record the last put under a key (or under a clashing one) leaves. */
  function LastPut(ps: seq<Put>, k: ChainKey): Option<Record> {
    if ps == [] then None
    else
      var p := ps[|ps| - 1];
      if Aliases(p.key, k) then Some(p.record) else LastPut(ps[..|ps| - 1], k)
  }

  function Or(a: Option<Record>, b: Option<Record>): Option<Record> {
    if a.Some? then a else b
  }

  lemma {:induction false} PutAllGet(d: Disk, ps: seq<Put>, k: ChainKey)
    ensures Get(PutAll(d, ps), k) == Or(LastPut(ps, k), Get(d, k))
  {
    if ps != [] {
      PutAllGet(d, ps[..|ps| - 1], k);
      KeysCollideExactly(ps[|ps| - 1].key, k);
    }
  }

  lemma {:induction false} LastPutAppend(a: seq<Put>, b: seq<Put>, k: ChainKey)
    ensures LastPut(a + b, k) == Or(LastPut(b, k), LastPut(a, k))
  {
    if b == [] {
      assert a + b == a;
    } else {
      assert (a + b)[..|a + b| - 1] == a + b[..|b| - 1];
      LastPutAppend(a, b[..|b| - 1], k);
    }
  }

  lemma OnePut(p: Put, k: ChainKey)
    ensures LastPut([p], k) == if Aliases(p.key, k) then Some(p.record) else None
  {
    assert [p][..0] == [];
  }

  lemma TwoPuts(p: Put, q: Put, k: ChainKey)
    ensures LastPut([p, q], k) ==
            if Aliases(q.key, k) then Some(q.record) else if Aliases(p.key, k) then Some(p.record) else None
  {
    assert [p, q][..1] == [p];
    OnePut(p, k);
  }

  // ---------- what one block write leaves under each key ----------

  function LastTx(txs: seq<Tx>, h: Hash): Option<Tx> {
    if txs == [] then None
    else if txs[|txs| - 1].hash == h then Some(txs[|txs| - 1])
    else LastTx(txs[..|txs| - 1], h)
  }

  function LastReceipt(rs: seq<Receipt>, h: Hash): Option<Receipt> {
    if rs == [] then None
    else if rs[|rs| - 1].txHash == h then Some(rs[|rs| - 1])
    else LastReceipt(rs[..|rs| - 1], h)
  }

  function TxEffect(txs: seq<Tx>, n: u64, k: ChainKey): Option<Record> {
    match k
    case TxKey(h) => if LastTx(txs, h).Some? then Some(TxRlp(LastTx(txs, h).value)) else None
    case TxBlockKey(h) => if LastTx(txs, h).Some? then Some(Raw(Minimal(n))) else None
    case _ => None
  }

  function ReceiptEffect(rs: seq<Receipt>, k: ChainKey): Option<Record> {
    match k
    case ReceiptKey(h) => if LastReceipt(rs, h).Some? then Some(ReceiptJson(LastReceipt(rs, h).value)) else None
    case _ => None
  }

  lemma {:induction false} TxPutsEffect(txs: seq<Tx>, n: u64, k: ChainKey)
    ensures LastPut(TxPuts(txs, n), k) == TxEffect(txs, n, k)
  {
    if txs != [] {
      var tx, front := txs[|txs| - 1], txs[..|txs| - 1];
      var p, q := Put(TxKey(tx.hash), TxRlp(tx)), Put(TxBlockKey(tx.hash), Raw(Minimal(n)));
      TxPutsEffect(front, n, k);
      LastPutAppend(TxPuts(front, n), [p, q], k);
      TwoPuts(p, q, k);
    }
  }

  lemma {:induction false} ReceiptPutsEffect(rs: seq<Receipt>, k: ChainKey)
    ensures LastPut(ReceiptPuts(rs), k) == ReceiptEffect(rs, k)
  {
    if rs != [] {
      ReceiptPutsEffect(rs[..|rs| - 1], k);
      LastPutAppend(ReceiptPuts(rs[..|rs| - 1]), [ReceiptPuts(rs)[|ReceiptPuts(rs)| - 1]], k);
    }
  }

  /** What a write leaves under a key, if it touches it. */
  function Effect(w: Write, k: ChainKey): Option<Record> {
    match w
    case PutBlock(b) =>
      (var n := b.header.number;
       match k
       case BlockKey(m) => if m == n then Some(BlockJson(b)) else None
       case BatchKey(i) => if Clash(n, i) then Some(BlockJson(b)) else None
       case BlockHashKey(h) => if h == b.header.hash then Some(Raw(Minimal(n))) else None
       case CurrentBlockKey => Some(Raw(Minimal(n)))
       case LatestRootKey => Some(Raw(b.header.stateRoot))
       case _ => Or(TxEffect(b.transactions, n, k), ReceiptEffect(b.receipts, k)))
    case PutBatch(b) =>
      (match k
       case BatchKey(i) => if i == b.index then Some(BatchJson(b)) else None
       case BlockKey(n) => if Clash(n, b.index) then Some(BatchJson(b)) else None
       case LatestBatchKey => Some(Raw(Minimal(b.index)))
       case _ => None)
    case PutGenesisRoot(root) => if k.GenesisRootKey? then Some(Raw(root)) else None
    case PutL1Origin(o) => if k.L1OriginKey? then Some(OriginJson(o)) else None
  }

  lemma BlockPutsEffect(b: L2Block, k: ChainKey)
    ensures LastPut(Puts(PutBlock(b)), k) == Effect(PutBlock(b), k)
  {
    var n := b.header.number;
    var p, q := Put(BlockKey(n), BlockJson(b)), Put(BlockHashKey(b.header.hash), Raw(Minimal(n)));
    var y, z := Put(CurrentBlockKey, Raw(Minimal(n))), Put(LatestRootKey, Raw(b.header.stateRoot));
    var txs, rs := TxPuts(b.transactions, n), ReceiptPuts(b.receipts);
    LastPutAppend([p, q] + txs + rs, [y, z], k);
    LastPutAppend([p, q] + txs, rs, k);
    LastPutAppend([p, q], txs, k);
    TwoPuts(p, q, k);
    TwoPuts(y, z, k);
    TxPutsEffect(b.transactions, n, k);
    ReceiptPutsEffect(b.receipts, k);
  }

  lemma WriteEffect(d: Disk, w: Write, k: ChainKey)
    ensures Get(Apply(d, w), k) == Or(Effect(w, k), Get(d, k))
  {
    PutAllGet(d, Puts(w), k);
    match w
    case PutBlock(b) => BlockPutsEffect(b, k);
    case PutBatch(b) =>
      TwoPuts(Put(BatchKey(b.index), BatchJson(b)), Put(LatestBatchKey, Raw(Minimal(b.index))), k);
    case PutGenesisRoot(root) => OnePut(Put(GenesisRootKey, Raw(root)), k);
    case PutL1Origin(o) => OnePut(Put(L1OriginKey, OriginJson(o)), k);
  }

  /** The last effect in a history. */
  function LastEffect(ws: seq<Write>, k: ChainKey): Option<Record> {
    if ws == [] then None else Or(Effect(ws[|ws| - 1], k), LastEffect(ws[..|ws| - 1], k))
  }

  lemma {:induction false} GetAfter(ws: seq<Write>, k: ChainKey)
    ensures Get(After(ws), k) == LastEffect(ws, k)
  {
    if ws != [] {
      GetAfter(ws[..|ws| - 1], k);
      WriteEffect(After(ws[..|ws| - 1]), ws[|ws| - 1], k);
    }
  }

  // ---------- reads in terms of the history ----------

  /** The last write under block number n: a block of that number, or a batch that clashes with it. */
  function BlockUnder(ws: seq<Write>, n: u64): Lookup<L2Block> {
    if ws == [] then Missing
    else
      match ws[|ws| - 1]
      case PutBlock(b) => if b.header.number == n then Found(b) else BlockUnder(ws[..|ws| - 1], n)
      case PutBatch(t) => if Clash(n, t.index) then Corrupt else BlockUnder(ws[..|ws| - 1], n)
      case _ => BlockUnder(ws[..|ws| - 1], n)
  }

  function BatchUnder(ws: seq<Write>, i: u64): Lookup<Batch> {
    if ws == [] then Missing
    else
      match ws[|ws| - 1]
      case PutBatch(t) => if t.index == i then Found(t) else BatchUnder(ws[..|ws| - 1], i)
      case PutBlock(b) => if Clash(b.header.number, i) then Corrupt else BatchUnder(ws[..|ws| - 1], i)
      case _ => BatchUnder(ws[..|ws| - 1], i)
  }

  /** The last block with a property. */
  function LastBlock(ws: seq<Write>, p: L2Block -> bool): (r: Option<L2Block>)
    ensures r.Some? ==> p(r.value)
  {
    if ws == [] then None
    else if ws[|ws| - 1].PutBlock? && p(ws[|ws| - 1].block) then Some(ws[|ws| - 1].block)
    else LastBlock(ws[..|ws| - 1], p)
  }

  function LastBatch(ws: seq<Write>): Option<Batch> {
    if ws == [] then None
    else if ws[|ws| - 1].PutBatch? then Some(ws[|ws| - 1].batch)
    else LastBatch(ws[..|ws| - 1])
  }

  lemma {:induction false} BlockUnderEffect(ws: seq<Write>, n: u64)
    ensures AsBlock(LastEffect(ws, BlockKey(n))) == BlockUnder(ws, n)
  {
    if ws != [] {
      BlockUnderEffect(ws[..|ws| - 1], n);
    }
  }

  lemma {:induction false} BatchUnderEffect(ws: seq<Write>, i: u64)
    ensures AsBatch(LastEffect(ws, BatchKey(i))) == BatchUnder(ws, i)
  {
    if ws != [] {
      BatchUnderEffect(ws[..|ws| - 1], i);
    }
  }

  /** A block read returns exactly the last write under its number. */
  lemma ReadBlockExact(ws: seq<Write>, n: u64)
    ensures ReadBlock(After(ws), n) == BlockUnder(ws, n)
  {
    GetAfter(ws, BlockKey(n));
    BlockUnderEffect(ws, n);
  }

  lemma ReadBatchExact(ws: seq<Write>, i: u64)
    ensures ReadBatch(After(ws), i) == BatchUnder(ws, i)
  {
    GetAfter(ws, BatchKey(i));
    BatchUnderEffect(ws, i);
  }

  ghost predicate Unclashed(ws: seq<Write>, n: u64) {
    forall k :: 0 <= k < |ws| && ws[k].PutBatch? ==> !Clash(n, ws[k].batch.index)
  }

  /** Unless a clashing batch was ever written, that is the last block written with that number. */
  lemma {:induction false} BlockUnderIsLastBlock(ws: seq<Write>, n: u64)
    requires Unclashed(ws, n)
    ensures var last := LastBlock(ws, (b: L2Block) => b.header.number == n);
            BlockUnder(ws, n) == if last.Some? then Found(last.value) else Missing
  {
    if ws != [] {
      var front := ws[..|ws| - 1];
      assert forall k :: 0 <= k < |front| ==> front[k] == ws[k];
      BlockUnderIsLastBlock(front, n);
    }
  }

  /**
    * Reading back what was just written fails exactly when a clashing batch is written
    * next: batch 1 overwrites block 29697, and that block overwrites batch 1.
    */
  lemma ClashOverwrites(ws: seq<Write>, b: L2Block, t: Batch)
    ensures ReadBlock(After(ws + [PutBlock(b), PutBatch(t)]), b.header.number) ==
            (if Clash(b.header.number, t.index) then Corrupt else Found(b))
    ensures ReadBatch(After(ws + [PutBatch(t), PutBlock(b)]), t.index) ==
            (if Clash(b.header.number, t.index) then Corrupt else Found(t))
  {
    var u, v := ws + [PutBlock(b), PutBatch(t)], ws + [PutBatch(t), PutBlock(b)];
    ReadBlockExact(u, b.header.number);
    ReadBatchExact(v, t.index);
    assert u[..|u| - 1] == ws + [PutBlock(b)] && v[..|v| - 1] == ws + [PutBatch(t)];
  }

  lemma {:induction false} HashIndexEffect(ws: seq<Write>, h: Hash)
    ensures var last := LastBlock(ws, (b: L2Block) => b.header.hash == h);
            LastEffect(ws, BlockHashKey(h)) ==
            if last.Some? then Some(Raw(Minimal(last.value.header.number))) else None
  {
    if ws != [] {
      HashIndexEffect(ws[..|ws| - 1], h);
    }
  }

  /** A read by hash goes to the number of the last block written with that hash. */
  lemma ReadBlockByHashExact(ws: seq<Write>, h: Hash)
    ensures var last := LastBlock(ws, (b: L2Block) => b.header.hash == h);
            ReadBlockByHash(After(ws), h) ==
            if last.Some? then BlockUnder(ws, last.value.header.number) else Missing
  {
    GetAfter(ws, BlockHashKey(h));
    HashIndexEffect(ws, h);
    var last := LastBlock(ws, (b: L2Block) => b.header.hash == h);
    if last.Some? {
      ReadBlockExact(ws, last.value.header.number);
    }
  }

  lemma {:induction false} TxIndexEffect(ws: seq<Write>, h: Hash)
    ensures var last := LastBlock(ws, (b: L2Block) => LastTx(b.transactions, h).Some?);
            && LastEffect(ws, TxBlockKey(h)) ==
               (if last.Some? then Some(Raw(Minimal(last.value.header.number))) else None)
            && LastEffect(ws, TxKey(h)) ==
               (if last.Some? then Some(TxRlp(LastTx(last.value.transactions, h).value)) else None)
  {
    if ws != [] {
      TxIndexEffect(ws[..|ws| - 1], h);
    }
  }

  /** A transaction is found, with its block's number, exactly if a block with it was written; the last one counts. */
  lemma ReadTransactionExact(ws: seq<Write>, h: Hash)
    ensures var last := LastBlock(ws, (b: L2Block) => LastTx(b.transactions, h).Some?);
            if last.Some? then
              && ReadTransaction(After(ws), h) == Found(LastTx(last.value.transactions, h).value)
              && ReadTxBlockNumber(After(ws), h) == Some(last.value.header.number)
            else ReadTransaction(After(ws), h) == Missing && ReadTxBlockNumber(After(ws), h) == None
  {
    GetAfter(ws, TxKey(h));
    GetAfter(ws, TxBlockKey(h));
    TxIndexEffect(ws, h);
    var last := LastBlock(ws, (b: L2Block) => LastTx(b.transactions, h).Some?);
    if last.Some? {
      ValueOfMinimal(last.value.header.number);
      WrapSmall(last.value.header.number);
    }
  }

  lemma {:induction false} ReceiptIndexEffect(ws: seq<Write>, h: Hash)
    ensures var last := LastBlock(ws, (b: L2Block) => LastReceipt(b.receipts, h).Some?);
            LastEffect(ws, ReceiptKey(h)) ==
            if last.Some? then Some(ReceiptJson(LastReceipt(last.value.receipts, h).value)) else None
  {
    if ws != [] {
      ReceiptIndexEffect(ws[..|ws| - 1], h);
    }
  }

  lemma ReadReceiptExact(ws: seq<Write>, h: Hash)
    ensures var last := LastBlock(ws, (b: L2Block) => LastReceipt(b.receipts, h).Some?);
            ReadReceipt(After(ws), h) ==
            if last.Some? then Found(LastReceipt(last.value.receipts, h).value) else Missing
  {
    GetAfter(ws, ReceiptKey(h));
    ReceiptIndexEffect(ws, h);
  }

  lemma {:induction false} LatestBatchEffect(ws: seq<Write>)
    ensures LastEffect(ws, LatestBatchKey) ==
            if LastBatch(ws).Some? then Some(Raw(Minimal(LastBatch(ws).value.index))) else None
  {
    if ws != [] {
      LatestBatchEffect(ws[..|ws| - 1]);
    }
  }

  lemma ReadLatestBatchExact(ws: seq<Write>)
    ensures ReadLatestBatch(After(ws)) ==
            if LastBatch(ws).Some? then BatchUnder(ws, LastBatch(ws).value.index) else Missing
  {
    GetAfter(ws, LatestBatchKey);
    LatestBatchEffect(ws);
    if LastBatch(ws).Some? {
      ReadBatchExact(ws, LastBatch(ws).value.index);
    }
  }

  // ---------- the tip ----------

  lemma {:induction false} TipEffect(ws: seq<Write>)
    ensures var last := LastBlock(ws, (b: L2Block) => true);
            && LastEffect(ws, CurrentBlockKey) ==
               (if last.Some? then Some(Raw(Minimal(last.value.header.number))) else None)
            && LastEffect(ws, LatestRootKey) ==
               (if last.Some? then Some(Raw(last.value.header.stateRoot)) else None)
  {
    if ws != [] {
      TipEffect(ws[..|ws| - 1]);
    }
  }

  /** What reopening decodes is the number and the state root of the last block written, or zero if there is none. */
  lemma StoredTipExact(ws: seq<Write>)
    ensures var last := LastBlock(ws, (b: L2Block) => true);
            && StoredNumber(After(ws)) == (if last.Some? then last.value.header.number else 0)
            && StoredRoot(After(ws)) == (if last.Some? then last.value.header.stateRoot else ZERO_HASH)
  {
    GetAfter(ws, CurrentBlockKey);
    GetAfter(ws, LatestRootKey);
    TipEffect(ws);
    var last := LastBlock(ws, (b: L2Block) => true);
    if last.Some? {
      ValueOfMinimal(last.value.header.number);
      WrapSmall(last.value.header.number);
    }
  }

  // ---------- genesis root and L1 origin ----------

  function LastGenesisRoot(ws: seq<Write>): Option<Hash> {
    if ws == [] then None
    else if ws[|ws| - 1].PutGenesisRoot? then Some(ws[|ws| - 1].root)
    else LastGenesisRoot(ws[..|ws| - 1])
  }

  function LastOrigin(ws: seq<Write>): Option<L1Origin> {
    if ws == [] then None
    else if ws[|ws| - 1].PutL1Origin? then Some(ws[|ws| - 1].origin)
    else LastOrigin(ws[..|ws| - 1])
  }

  lemma {:induction false} MetaEffect(ws: seq<Write>)
    ensures LastEffect(ws, GenesisRootKey) ==
            (if LastGenesisRoot(ws).Some? then Some(Raw(LastGenesisRoot(ws).value)) else None)
    ensures LastEffect(ws, L1OriginKey) ==
            (if LastOrigin(ws).Some? then Some(OriginJson(LastOrigin(ws).value)) else None)
  {
    if ws != [] {
      MetaEffect(ws[..|ws| - 1]);
    }
  }

  /** Both metadata keys hold what was last written to them, whatever else was written. */
  lemma StoredMetaExact(ws: seq<Write>)
    ensures GenesisRoot(After(ws)) == LastGenesisRoot(ws)
    ensures StoredOrigin(After(ws)) == LastOrigin(ws)
  {
    GetAfter(ws, GenesisRootKey);
    GetAfter(ws, L1OriginKey);
    MetaEffect(ws);
  }
}
