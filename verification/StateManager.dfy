/** The state manager itself: state store, chain database, executor and tip, refining ChainState. */
module StateManager {
  import opened Common
  import opened Transactions
  import opened Ledger
  import opened Execution
  import opened EvmExecutor
  import opened ChainStore
  import opened ChainStoreProofs
  import opened ChainState
  import opened ChainDB

  /** Committed states, by root. */
  class StateStore {
    var states: map<Hash, World>

    constructor ()
      ensures states == map[]
    {
      states := map[];
    }

    method OpenState(root: Hash) returns (sdb: StateDB?)
      ensures Open(states, root).None? <==> sdb == null
      ensures sdb != null ==> fresh(sdb) && Some(sdb.world) == Open(states, root)
    {
      var w := Open(states, root);
      sdb := null;
      if w.Some? {
        sdb := new StateDB(w.value);
      }
    }

    method CommitState(cfg: Config, sdb: StateDB, commitOk: bool) returns (root: Option<Hash>)
      modifies this
      ensures root == if commitOk then Some(RootAfter(cfg, sdb.world)) else None
      ensures states == if commitOk then Save(cfg, old(states), sdb.world) else old(states)
    {
      root := None;
      if commitOk {
        states := Save(cfg, states, sdb.world);
        root := Some(RootAfter(cfg, sdb.world));
      }
    }
  }

  /** A genesis root is on disk. */
  ghost predicate HasGenesis(history: seq<Write>) {
    var stored := GenesisRoot(After(history));
    stored.Some? && stored.value != ZERO_HASH
  }

  class Manager {
    const cfg: Config
    const stateStore: StateStore
    const chainDB: ChainDB
    const executor: EVMExecutor
    var currentBlock: u64
    var stateRoot: Hash
    var l1Origin: L1Origin

    ghost function View(): Node
      reads this, stateStore, chainDB
    {
      Node(stateStore.states, chainDB.history, currentBlock, stateRoot, l1Origin)
    }

    ghost predicate Valid()
      reads this, chainDB, chainDB.db
    {
      chainDB.Valid() && executor.machine == cfg.machine
    }

    /** Wires the parts together; NewManager opens it. */
    constructor (cfg: Config, stateStore: StateStore, db: Database, ghost history: seq<Write>)
      requires db.data == After(history)
      ensures Valid() && fresh(chainDB) && fresh(executor)
      ensures this.cfg == cfg && this.stateStore == stateStore && chainDB.db == db && chainDB.history == history
      ensures currentBlock == 0 && stateRoot == ZERO_HASH && l1Origin == NO_ORIGIN
    {
      this.cfg := cfg;
      this.stateStore := stateStore;
      chainDB := new ChainDB(db, history);
      executor := new EVMExecutor(cfg.machine);
      currentBlock, stateRoot, l1Origin := 0, ZERO_HASH, NO_ORIGIN;
    }

    /**
      * Opens the databases: restores the tip if a genesis root is stored, otherwise opens the
      * empty state, applies the genesis allocation (`None` if it is malformed), commits it and
      * stores its root.  The result is null if one of these four fails.
      */
    static method NewManager(
      cfg: Config, stateStore: StateStore, db: Database, openOk: bool, genesis: Option<World>, commitOk: bool, writeOk: bool,
      ghost history: seq<Write>)
      returns (m: Manager?)
      requires db.data == After(history)
      modifies stateStore, db
      ensures m == null <==> !HasGenesis(history) && !(openOk && genesis.Some? && commitOk && writeOk)
      ensures m != null ==>
                && fresh(m) && m.Valid() && m.cfg == cfg && m.stateStore == stateStore && m.chainDB.db == db
                && m.View() == Boot(cfg, old(stateStore.states), history, if genesis.Some? then genesis.value else EMPTY_WORLD)
      ensures m == null ==>
                && db.data == After(history)
                && stateStore.states ==
                   if openOk && genesis.Some? && commitOk then Save(cfg, old(stateStore.states), genesis.value)
                   else old(stateStore.states)
    {
      m := new Manager(cfg, stateStore, db, history);
      var ok := m.Initialize(openOk, genesis, commitOk, writeOk);
      if !ok {
        m := null;
      }
    }

    method Initialize(openOk: bool, genesis: Option<World>, commitOk: bool, writeOk: bool) returns (ok: bool)
      requires Valid()
      requires currentBlock == 0 && l1Origin == NO_ORIGIN
      modifies this`currentBlock, this`stateRoot, this`l1Origin, stateStore, chainDB`history, chainDB.db
      ensures Valid() && (ok <==> HasGenesis(old(chainDB.history)) || (openOk && genesis.Some? && commitOk && writeOk))
      ensures ok ==>
                View() == Boot(
                  cfg, old(stateStore.states), old(chainDB.history), if genesis.Some? then genesis.value else EMPTY_WORLD)
      ensures !ok ==>
                && chainDB.history == old(chainDB.history)
                && stateStore.states ==
                   if openOk && genesis.Some? && commitOk then Save(cfg, old(stateStore.states), genesis.value)
                   else old(stateStore.states)
    {
      var stored := GenesisRoot(chainDB.db.data);
      if stored.Some? && stored.value != ZERO_HASH {
        Restore();
        return true;
      }
      if !openOk || genesis.None? {
        return false;
      }
      var sdb := new StateDB(genesis.value);
      var root := stateStore.CommitState(cfg, sdb, commitOk);
      if root.None? {
        return false;
      }
      stateRoot := root.value;
      ok := chainDB.WriteGenesisRoot(stateRoot, writeOk);
    }

    /** Number and root come from the database's cache, the origin from its own key. */
    method Restore()
      requires Valid() && l1Origin == NO_ORIGIN
      modifies this`currentBlock, this`stateRoot, this`l1Origin
      ensures Valid() && currentBlock == StoredNumber(After(chainDB.history))
      ensures stateRoot == StoredRoot(After(chainDB.history))
      ensures var o := StoredOrigin(After(chainDB.history));
              l1Origin == if o.Some? then o.value else NO_ORIGIN
    {
      currentBlock := chainDB.currentBlock;
      stateRoot := chainDB.stateRoot;
      var origin := StoredOrigin(chainDB.db.data);
      if origin.Some? {
        l1Origin := origin.value;
      }
    }

    /** The hash stored under a number; `None` stands for the nil header of a record that is not a block. */
    method GetBlockHash(n: u64) returns (h: Option<Hash>)
      requires Valid()
      ensures h == BlockHashAt(View().history, n)
    {
      var r := chainDB.ReadBlock(n);
      match r
      case Missing => h := Some(ZERO_HASH);
      case Found(b) => h := Some(b.header.hash);
      case Corrupt => h := None;
    }

    method GetBlock(n: u64) returns (r: Lookup<L2Block>)
      requires Valid()
      ensures r == BlockUnder(View().history, n)
    {
      r := chainDB.ReadBlock(n);
    }

    /** Stamps the receipts and looks each one's transaction up by hash. */
    static method Pair(txs: seq<Tx>, results: seq<Receipt>, blockHash: Hash, blockNum: u64)
      returns (receipts: seq<Receipt>, executedTxs: seq<Tx>)
      ensures receipts == SealAll(results, blockHash, blockNum)
      ensures executedTxs == Matching(txs, results)
    {
      receipts, executedTxs := [], [];
      for i := 0 to |results|
        invariant receipts == SealAll(results[..i], blockHash, blockNum)
        invariant executedTxs == Matching(txs, results[..i])
      {
        var r := results[i];
        assert results[..i + 1][..i] == results[..i];
        receipts := receipts + [r.(blockHash := blockHash, blockNumber := blockNum, txIndex := i)];
        var j := 0;
        while j < |txs| && txs[j].hash != r.txHash
          invariant j <= |txs| && FindTx(txs, r.txHash) == FindTx(txs[j..], r.txHash)
        {
          j := j + 1;
        }
        if j < |txs| {
          executedTxs := executedTxs + [txs[j]];
        }
      }
      assert results[..|results|] == results;
    }

    /** Execute, commit, assemble, write; the tip moves only when all of it got through. */
    method ExecuteAndCommitBlock(
      txs: seq<Tx>, blockNum: u64, timestamp: u64, parentHash: Hash, baseFee: nat, commitOk: bool, writeOk: bool)
      returns (outcome: Outcome)
      requires Valid()
      modifies this`currentBlock, this`stateRoot, stateStore
      modifies chainDB`currentBlock, chainDB`stateRoot, chainDB`history, chainDB.db
      ensures Valid()
      ensures Committed(View(), outcome) == ChainState.ExecuteAndCommitBlock(
                cfg, old(View()), txs, blockNum, timestamp, parentHash, baseFee, commitOk, writeOk)
    {
      hide Open, Save, Execute, chainDB.Valid;
      var sdb := stateStore.OpenState(stateRoot);
      if sdb == null {
        return Failed;
      }
      ghost var world := sdb.world;
      var execCtx := BlockCtx(blockNum, timestamp, cfg.sequencer, BLOCK_GAS, baseFee, parentHash);
      var results, skipped, cumulativeGas := executor.ExecuteTransactions(sdb, txs, execCtx);
      ghost var run := Execute(cfg.machine, execCtx, world, txs);
      var newRoot := stateStore.CommitState(cfg, sdb, commitOk);
      if newRoot.None? {
        return Failed;
      }
      var blockHash := BlockHash(blockNum, newRoot.value, timestamp, parentHash);
      var receipts, executedTxs := Pair(txs, results, blockHash, blockNum);
      var header := Header(
        blockNum, blockHash, parentHash, timestamp, newRoot.value, cumulativeGas, execCtx.gasLimit,
        |executedTxs|, cfg.sequencer, l1Origin, baseFee);
      var block := L2Block(header, executedTxs, receipts);
      assert block == Assemble(cfg, txs, run, blockNum, timestamp, parentHash, baseFee, l1Origin);
      var written := chainDB.WriteBlock(block, writeOk);
      if !written {
        return Failed;
      }
      currentBlock := blockNum;
      stateRoot := newRoot.value;
      outcome := Produced(block, skipped);
    }

    /** An error of the database write is ignored: memory and disk may then disagree about the origin. */
    method SetL1Origin(origin: L1Origin, writeOk: bool)
      requires Valid()
      modifies this`l1Origin, chainDB`history, chainDB.db
      ensures Valid() && View() == ChainState.SetL1Origin(old(View()), origin, writeOk)
    {
      l1Origin := origin;
      var written := chainDB.WriteL1Origin(origin, writeOk);
    }

    method AddBatch(batch: Batch, writeOk: bool)
      requires Valid()
      modifies chainDB`history, chainDB.db
      ensures Valid() && View() == ChainState.AddBatch(old(View()), batch, writeOk)
    {
      var written := chainDB.WriteBatch(batch, writeOk);
    }
  }
}
