/** The chain database: a key-value store, and a cache of the tip that always agrees with it. */
module ChainDB {
  import opened Common
  import opened BigEndian
  import opened ChainKeys
  import opened ChainStore
  import opened ChainStoreProofs

  /** The key-value store under the chain database; it survives a restart. */
  class Database {
    var data: Disk

    constructor ()
      ensures data == map[]
    {
      data := map[];
    }

    /** A write batch reaches the disk whole, or on an I/O error not at all. */
    method Write(puts: seq<Put>, diskOk: bool) returns (ok: bool)
      modifies this
      ensures ok == diskOk
      ensures data == if ok then PutAll(old(data), puts) else old(data)
    {
      ok := diskOk;
      if ok {
        var i := 0;
        while i < |puts|
          invariant i <= |puts| && data == PutAll(old(data), puts[..i])
        {
          assert puts[..i + 1][..i] == puts[..i];
          data := data[Encode(puts[i].key) := puts[i].record];
          i := i + 1;
        }
        assert puts[..|puts|] == puts;
      }
    }
  }

  lemma AfterSnoc(ws: seq<Write>, w: Write)
    ensures After(ws + [w]) == Apply(After(ws), w)
    ensures LastBlock(ws + [w], (b: L2Block) => true) ==
            if w.PutBlock? then Some(w.block) else LastBlock(ws, (b: L2Block) => true)
  {
    assert (ws + [w])[..|ws|] == ws;
  }

  class ChainDB {
    const db: Database
    var currentBlock: u64
    var stateRoot: Hash
    ghost var history: seq<Write>

    /** The disk is what the history of writes made it, and the cache is what a reopening would load. */
    ghost predicate Valid()
      reads this, db
    {
      && db.data == After(history)
      && currentBlock == StoredNumber(db.data)
      && stateRoot == StoredRoot(db.data)
    }

    constructor (db: Database, ghost history: seq<Write>)
      requires db.data == After(history)
      ensures Valid() && this.db == db && this.history == history
    {
      this.db := db;
      this.history := history;
      currentBlock := 0;
      stateRoot := ZERO_HASH;
      var number := Get(db.data, CurrentBlockKey);
      if number.Some? && number.value.Raw? && |number.value.bytes| > 0 {
        currentBlock := Wrap64(Value(number.value.bytes));
      }
      var root := Get(db.data, LatestRootKey);
      if root.Some? && root.value.Raw? && |root.value.bytes| == 32 {
        stateRoot := root.value.bytes;
      }
    }

    /** Whenever a block has been written, cache and disk both name the last one written. */
    lemma Tip()
      requires Valid()
      ensures var last := LastBlock(history, (b: L2Block) => true);
              && currentBlock == (if last.Some? then last.value.header.number else 0)
              && stateRoot == (if last.Some? then last.value.header.stateRoot else ZERO_HASH)
    {
      StoredTipExact(history);
    }

    /** Assembles the write batch of a block: the block, its indices, the tip. */
    static method BlockPuts(block: L2Block) returns (puts: seq<Put>)
      ensures puts == Puts(PutBlock(block))
    {
      var n := block.header.number;
      puts := [Put(BlockKey(n), BlockJson(block)), Put(BlockHashKey(block.header.hash), Raw(Minimal(n)))];
      ghost var start := puts;
      for i := 0 to |block.transactions|
        invariant puts == start + TxPuts(block.transactions[..i], n)
      {
        var tx := block.transactions[i];
        assert block.transactions[..i + 1][..i] == block.transactions[..i];
        puts := puts + [Put(TxKey(tx.hash), TxRlp(tx)), Put(TxBlockKey(tx.hash), Raw(Minimal(n)))];
      }
      assert block.transactions[..|block.transactions|] == block.transactions;
      ghost var indexed := puts;
      for i := 0 to |block.receipts|
        invariant puts == indexed + ReceiptPuts(block.receipts[..i])
      {
        var r := block.receipts[i];
        assert block.receipts[..i + 1][..i] == block.receipts[..i];
        puts := puts + [Put(ReceiptKey(r.txHash), ReceiptJson(r))];
      }
      assert block.receipts[..|block.receipts|] == block.receipts;
      puts := puts + [Put(CurrentBlockKey, Raw(Minimal(n))), Put(LatestRootKey, Raw(block.header.stateRoot))];
    }

    /** A block, its indices and the tip are written together; on failure neither disk nor cache moves. */
    method WriteBlock(block: L2Block, diskOk: bool) returns (ok: bool)
      requires Valid()
      modifies this`currentBlock, this`stateRoot, this`history, db
      ensures Valid() && ok == diskOk
      ensures history == if ok then old(history) + [PutBlock(block)] else old(history)
      ensures ok ==> currentBlock == block.header.number && stateRoot == block.header.stateRoot
      ensures !ok ==> currentBlock == old(currentBlock) && stateRoot == old(stateRoot)
    {
      var puts := BlockPuts(block);
      ok := db.Write(puts, diskOk);
      if ok {
        AfterSnoc(history, PutBlock(block));
        history := history + [PutBlock(block)];
        currentBlock := block.header.number;
        stateRoot := block.header.stateRoot;
        StoredTipExact(history);
      }
    }

    /** Every other write leaves the tip where it is, in the cache and on disk. */
    method Record(w: Write, diskOk: bool) returns (ok: bool)
      requires Valid() && !w.PutBlock?
      modifies this`history, db
      ensures Valid() && ok == diskOk
      ensures history == if ok then old(history) + [w] else old(history)
    {
      ok := db.Write(Puts(w), diskOk);
      if ok {
        AfterSnoc(history, w);
        StoredTipExact(history);
        history := history + [w];
        StoredTipExact(history);
      }
    }

    method WriteBatch(batch: Batch, diskOk: bool) returns (ok: bool)
      requires Valid()
      modifies this`history, db
      ensures Valid() && ok == diskOk
      ensures history == if ok then old(history) + [PutBatch(batch)] else old(history)
    {
      ok := Record(PutBatch(batch), diskOk);
    }

    method WriteGenesisRoot(root: Hash, diskOk: bool) returns (ok: bool)
      requires Valid()
      modifies this`history, db
      ensures Valid() && ok == diskOk
      ensures history == if ok then old(history) + [PutGenesisRoot(root)] else old(history)
    {
      ok := Record(PutGenesisRoot(root), diskOk);
    }

    method WriteL1Origin(origin: L1Origin, diskOk: bool) returns (ok: bool)
      requires Valid()
      modifies this`history, db
      ensures Valid() && ok == diskOk
      ensures history == if ok then old(history) + [PutL1Origin(origin)] else old(history)
    {
      ok := Record(PutL1Origin(origin), diskOk);
    }

    method ReadBlock(n: u64) returns (r: Lookup<L2Block>)
      requires Valid()
      ensures r == BlockUnder(history, n)
    {
      r := ChainStore.ReadBlock(db.data, n);
      ReadBlockExact(history, n);
    }

    method ReadBlockByHash(h: Hash) returns (r: Lookup<L2Block>)
      requires Valid()
      ensures var last := LastBlock(history, (b: L2Block) => b.header.hash == h);
              r == if last.Some? then BlockUnder(history, last.value.header.number) else Missing
    {
      r := ChainStore.ReadBlockByHash(db.data, h);
      ReadBlockByHashExact(history, h);
    }

    method ReadBatch(i: u64) returns (r: Lookup<Batch>)
      requires Valid()
      ensures r == BatchUnder(history, i)
    {
      r := ChainStore.ReadBatch(db.data, i);
      ReadBatchExact(history, i);
    }

    method ReadLatestBatch() returns (r: Lookup<Batch>)
      requires Valid()
      ensures r == if LastBatch(history).Some? then BatchUnder(history, LastBatch(history).value.index) else Missing
    {
      r := ChainStore.ReadLatestBatch(db.data);
      ReadLatestBatchExact(history);
    }
  }
}
