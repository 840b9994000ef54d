/**
  * Safety of the whole sequencer over every interleaving of its steps: what holds of any
  * submitted transactions and any EVM.
  */
module PipelineProofs {
  import opened Common
  import opened Transactions
  import opened Ledger
  import opened LanePool
  import opened LanePoolProofs
  import opened LaneConservation
  import opened Producing
  import opened ChainStore
  import ChainStoreProofs
  import opened ChainState
  import opened ChainProofs
  import ChainLaws
  import opened Batching
  import opened Pipeline

  // ---------- what is assumed of events ----------

  /** The next block number fits, and the root of the state it commits does not collide. */
  ghost predicate CommitOk(c: SysConfig, core: Core, batch: seq<TxMeta>, timestamp: u64) {
    var w := ProducedWorld(c.chain, core.node, TxsOf(batch), timestamp, core.fee.baseFee);
    core.node.number + 1 < U64 && (w.Some? ==> SaveOk(c.chain, core.node.states, w.value))
  }

  /** Submissions are not restricted. */
  ghost predicate EventOk(c: SysConfig, a: Audited, e: Event) {
    match e
    case Commit(timestamp, _, _) =>
      a.sys.flight.Popped? ==> CommitOk(c, a.sys.core, a.sys.flight.batch, timestamp)
    case Send(_, _, _) => |a.sys.batcher.sent| + 1 < U64
    case _ => true
  }

  // ---------- the invariant ----------

  function Blocks(s: Sys): seq<L2Block> {
    BlocksOf(s.core.node.history)
  }

  function FlightTxs(f: Flight): seq<Tx> {
    match f
    case Idle => []
    case Popped(batch, _) => TxsOf(batch)
    case Returning(queue, _) => TxsIn(queue)
  }

  /** The chain is good, and its batch records have the indices the batcher gives. */
  ghost predicate ChainSound(c: SysConfig, base: World, node: Node) {
    NodeOk(c.chain, base, node) && IndexedFromOne(node.history)
  }

  ghost predicate FlightOk(f: Flight) {
    f.Popped? ==> NoDuplicates(f.batch)
  }

  ghost predicate BatchingOk(b: Batcher, frame: Option<BatchFrame>, blocks: seq<L2Block>) {
    BatchesOk(b, blocks) && (frame.Some? ==> FrameFor(b, frame.value, blocks))
  }

  /** Every accepted transaction is accounted for exactly once. */
  ghost predicate Balanced(a: Audited) {
    a.accepted ==
    Bag(a.sys.core.pool.queues) + multiset(FlightTxs(a.sys.flight)) + multiset(ChainLaws.TxsIn(Blocks(a.sys)))
    + a.lost + a.repeated
  }

  ghost predicate SysOk(c: SysConfig, base: World, a: Audited) {
    var s := a.sys;
    && PoolOk(s.core.pool)
    && ChainSound(c, base, s.core.node)
    && FlightOk(s.flight)
    && BatchingOk(s.batcher, s.frame, Blocks(s))
    && Balanced(a)
  }

  lemma StartOk(
    c: SysConfig, base: World, node: Node, weight: real, maxSize: int, clock: nat,
    initialGas: u64, initialMaxTx: int, target: real)
    requires ChainSound(c, base, node)
    ensures var a := Start(node, weight, maxSize, clock, initialGas, initialMaxTx, target);
            SysOk(c, base, a.(accepted := multiset(ChainLaws.TxsIn(BlocksOf(node.history)))))
  {
    hide ChainSound, PoolOk, ChainLaws.TxsIn;
    EmptyOk(weight, maxSize, clock);
    NewBatcherOk(BlocksOf(node.history));
  }

  // ---------- one lemma per event ----------

  lemma SubmitKeeps(c: SysConfig, base: World, a: Audited, entry: Entry) returns (a': Audited)
    requires SysOk(c, base, a)
    ensures a' == SubmitTo(a, entry) && SysOk(c, base, a')
  {
    hide ChainSound, FlightOk, BatchingOk, Bag, PoolOk;
    a' := SubmitTo(a, entry);
    AddOk(a.sys.core.pool, entry.tx, entry.sender, entry.score);
    AddBag(a.sys.core.pool, entry.tx, entry.sender, entry.score);
  }

  lemma PopKeeps(c: SysConfig, base: World, a: Audited) returns (a': Audited)
    requires SysOk(c, base, a) && a.sys.flight.Idle?
    ensures a' == a.(sys := a.sys.(core := PopStep(c, a.sys.core).0, flight := PopStep(c, a.sys.core).1))
    ensures SysOk(c, base, a') && Blocks(a'.sys) == Blocks(a.sys)
  {
    hide ChainSound, BatchingOk, Bag, PoolOk, PopBatch;
    var core := a.sys.core;
    var s := PopConserves(core.pool, MaxTx(c, core), GasLimit(c, core));
    a' := a.(sys := a.sys.(core := core.(pool := s.pool), flight := Popped(s.batch, GasLimit(c, core))));
  }

  lemma HeadOfQueue(queue: seq<Entry>)
    requires queue != []
    ensures multiset(TxsIn(queue)) == multiset{queue[0].tx} + multiset(TxsIn(queue[1..]))
  {
    assert TxsIn(queue) == [queue[0].tx] + TxsIn(queue[1..]);
  }

  lemma PutBackBalances(a: Audited) returns (a': Audited)
    requires Balanced(a) && a.sys.flight.Returning? && a.sys.flight.queue != []
    ensures a' == PutBackNext(a) && Balanced(a')
  {
    hide Bag, Add, AddOutcome;
    a' := PutBackNext(a);
    var e := a.sys.flight.queue[0];
    HeadOfQueue(a.sys.flight.queue);
    AddBag(a.sys.core.pool, e.tx, e.sender, e.score);
  }

  lemma PutBackKeeps(c: SysConfig, base: World, a: Audited) returns (a': Audited)
    requires SysOk(c, base, a) && a.sys.flight.Returning? && a.sys.flight.queue != []
    ensures a' == PutBackNext(a) && SysOk(c, base, a')
  {
    hide ChainSound, BatchingOk, Balanced, PoolOk, Add, AddOutcome;
    a' := PutBackBalances(a);
    var e := a.sys.flight.queue[0];
    AddOk(a.sys.core.pool, e.tx, e.sender, e.score);
  }

  lemma FinishKeeps(c: SysConfig, base: World, a: Audited) returns (a': Audited)
    requires SysOk(c, base, a) && a.sys.flight.Returning? && a.sys.flight.queue == []
    ensures a' == a.(sys := a.sys.(core := FinishStep(c, a.sys.core, a.sys.flight.usage), flight := Idle))
    ensures SysOk(c, base, a') && Blocks(a'.sys) == Blocks(a.sys)
  {
    hide ChainSound, BatchingOk, Bag, PoolOk, FinishStep;
    a' := a.(sys := a.sys.(core := FinishStep(c, a.sys.core, a.sys.flight.usage), flight := Idle));
    FinishPool(c, a.sys.core, a.sys.flight);
  }

  lemma FinishPool(c: SysConfig, core: Core, f: Flight)
    requires f.Returning?
    ensures FinishStep(c, core, f.usage).pool == core.pool && FinishStep(c, core, f.usage).node == core.node
    ensures f.queue == [] ==> FlightTxs(f) == []
  {}

  lemma CollectKeeps(c: SysConfig, base: World, a: Audited) returns (a': Audited)
    requires SysOk(c, base, a) && a.sys.frame.None?
    ensures a' == a.(sys := CollectOf(a.sys))
    ensures SysOk(c, base, a') && Blocks(a'.sys) == Blocks(a.sys)
  {
    hide FlightOk, PoolOk, BatchesOk, NextFrame, FrameFor, NodeOk, Balanced;
    a' := a.(sys := CollectOf(a.sys));
    NextFrameExact(c.chain, base, a.sys.batcher, a.sys.core.node);
    SameBalance(a, a');
  }

  /** The account looks at pool, flight and blocks only. */
  lemma SameBalance(a: Audited, z: Audited)
    requires z == a.(sys := z.sys) && z.sys.core.pool == a.sys.core.pool && z.sys.flight == a.sys.flight
    requires Blocks(z.sys) == Blocks(a.sys)
    ensures Balanced(a) ==> Balanced(z)
  {}

  lemma IndexedSnoc(ws: seq<Write>, w: Write)
    requires IndexedFromOne(ws) && (w.PutBatch? ==> w.batch.index >= 1)
    ensures IndexedFromOne(ws + [w])
  {}

  lemma ObserveKeeps(c: SysConfig, base: World, a: Audited, origin: L1Origin, writeOk: bool) returns (a': Audited)
    requires SysOk(c, base, a)
    ensures a' == a.(sys := a.sys.(core := a.sys.core.(node := SetL1Origin(a.sys.core.node, origin, writeOk))))
    ensures SysOk(c, base, a') && Blocks(a'.sys) == Blocks(a.sys)
  {
    hide FlightOk, Bag, PoolOk, BatchingOk, NodeOk;
    a' := a.(sys := a.sys.(core := a.sys.core.(node := SetL1Origin(a.sys.core.node, origin, writeOk))));
    OriginKeeps(c.chain, base, a.sys.core.node, origin);
    IndexedSnoc(a.sys.core.node.history, PutL1Origin(origin));
    RecordKeeps(c.chain, base, a.sys.core.node, PutL1Origin(origin), origin);
  }

  lemma SendKeeps(c: SysConfig, base: World, a: Audited, l1TxHash: Option<Hash>, size: nat, writeOk: bool) returns (a': Audited)
    requires SysOk(c, base, a) && a.sys.frame.Some? && |a.sys.batcher.sent| + 1 < U64
    ensures a' == a.(sys := SendOf(a.sys, l1TxHash, size, writeOk))
    ensures SysOk(c, base, a') && Blocks(a'.sys) == Blocks(a.sys)
  {
    hide FlightOk, Bag, PoolOk, BatchesOk, FrameFor, NodeOk;
    a' := a.(sys := SendOf(a.sys, l1TxHash, size, writeOk));
    if l1TxHash.Some? {
      var record := RecordOf(a.sys.batcher, a.sys.frame.value, l1TxHash.value, size);
      RecordIndex(a.sys.batcher, a.sys.frame.value, Blocks(a.sys), l1TxHash.value, size);
      IndexedSnoc(a.sys.core.node.history, PutBatch(record));
      RecordKeeps(c.chain, base, a.sys.core.node, PutBatch(record), a.sys.core.node.origin);
      AdvanceKeeps(a.sys.batcher, a.sys.frame.value, Blocks(a.sys), l1TxHash.value, size);
    }
  }

  lemma RecordIndex(b: Batcher, f: BatchFrame, blocks: seq<L2Block>, l1TxHash: Hash, size: nat)
    requires BatchesOk(b, blocks) && |b.sent| + 1 < U64
    ensures RecordOf(b, f, l1TxHash, size).index == |b.sent| + 1
  {
    WrapSmall(b.batchIndex + 1);
  }

  lemma PollKeeps(c: SysConfig, base: World, a: Audited, answers: Answers) returns (a': Audited)
    requires SysOk(c, base, a) && a.sys.frame.None?
    ensures a' == a.(sys := a.sys.(batcher := Confirm(a.sys.batcher, answers)))
    ensures SysOk(c, base, a')
  {
    hide FlightOk, Bag, PoolOk, ChainSound;
    a' := a.(sys := a.sys.(batcher := Confirm(a.sys.batcher, answers)));
    var b, b' := a.sys.batcher, a'.sys.batcher;
    assert b'.sent == b.sent;
    forall k: int
      ensures SentOk(b'.sent, k)
    {
      assert SentOk(b.sent, k);
    }
  }

  // ---------- the commit ----------

  /** The chain's part of a commit: sound again, and grown by the included transactions if it succeeds. */
  lemma CommitChain(
    c: SysConfig, base: World, core: Core, batch: seq<TxMeta>, timestamp: u64, commitOk: bool, writeOk: bool)
    returns (r: Option<Committed>)
    requires ChainSound(c, base, core.node) && CommitOk(c, core, batch, timestamp) && NoDuplicates(batch)
    ensures r == ProduceNext(c.chain, core.node, TxsOf(batch), timestamp, core.fee.baseFee, commitOk, writeOk)
    ensures r.Some? ==> ChainSound(c, base, r.value.node)
    ensures r.Some? && r.value.outcome.Failed? ==> r.value.node.history == core.node.history
    ensures r.Some? && r.value.outcome.Produced? ==>
              && r.value.node.history == core.node.history + [PutBlock(r.value.outcome.block)]
              && r.value.outcome.block.header.timestamp == timestamp
              && r.value.outcome.block.header.baseFee == core.fee.baseFee
              && multiset(r.value.outcome.block.transactions) + multiset(r.value.outcome.skipped) == multiset(TxsOf(batch))
  {
    hide NodeOk, ExecuteAndCommitBlock;
    var n, txs := core.node, TxsOf(batch);
    var parent := BlockHashAt(n.history, n.number);
    if parent.None? {
      r := None;
    } else {
      BatchDistinct(batch);
      var committed := CommitKeeps(
        c.chain, base, n, txs, timestamp, parent.value, core.fee.baseFee, commitOk, writeOk);
      ProducedAligned(
        c.chain, n, batch, Wrap64(n.number + 1), timestamp, parent.value, core.fee.baseFee, commitOk, writeOk);
      r := Some(committed);
    }
  }

  /** What goes back after a commit: everything if it failed, exactly the skipped ones if it succeeded. */
  lemma BackIs(batch: seq<TxMeta>, gasLimit: u64, o: Outcome)
    requires NoDuplicates(batch)
    requires o.Produced? ==> multiset(o.block.transactions) + multiset(o.skipped) == multiset(TxsOf(batch))
    ensures FlightTxs(FlightAfter(batch, gasLimit, o)) == if o.Failed? then TxsOf(batch) else o.skipped
  {
    if o.Produced? {
      BatchDistinct(batch);
      PartDistinct(o.skipped, TxsOf(batch));
      ReturnedAll(batch, o.skipped);
    }
  }

  lemma BatchingGrows(b: Batcher, frame: Option<BatchFrame>, blocks: seq<L2Block>, longer: seq<L2Block>)
    requires BatchingOk(b, frame, blocks) && blocks <= longer
    ensures BatchingOk(b, frame, longer)
  {
    BatchesOkGrows(b, blocks, longer);
    if frame.Some? {
      FrameForGrows(b, frame.value, blocks, longer);
    }
  }

  lemma GrownTxs(blocks: seq<L2Block>, b: L2Block)
    ensures ChainLaws.TxsIn(blocks + [b]) == ChainLaws.TxsIn(blocks) + b.transactions
  {
    assert (blocks + [b])[..|blocks|] == blocks;
  }

  /** What a commit does to the system, in terms of the chain's answer. */
  lemma CommitForm(c: SysConfig, sys: Sys, timestamp: u64, commitOk: bool, writeOk: bool, r: Option<Committed>)
    requires sys.flight.Popped?
    requires r == ProduceNext(
               c.chain, sys.core.node, TxsOf(sys.flight.batch), timestamp, sys.core.fee.baseFee, commitOk, writeOk)
    ensures CommitOf(c, sys, timestamp, commitOk, writeOk) ==
            if r.None? then sys.(halted := true)
            else sys.(core := sys.core.(node := r.value.node),
                      flight := FlightAfter(sys.flight.batch, sys.flight.gasLimit, r.value.outcome))
  {}

  lemma FlightAfterReturns(batch: seq<TxMeta>, gasLimit: u64, o: Outcome)
    ensures FlightAfter(batch, gasLimit, o).Returning?
  {}

  /** What is left of the flight and what the chain gained are what was in flight. */
  lemma CommitBalances(a: Audited, z: Audited, o: Outcome)
    requires Balanced(a) && a.sys.flight.Popped? && NoDuplicates(a.sys.flight.batch)
    requires o.Produced? ==>
               && Blocks(z.sys) == Blocks(a.sys) + [o.block]
               && multiset(o.block.transactions) + multiset(o.skipped) == multiset(TxsOf(a.sys.flight.batch))
    requires o.Failed? ==> Blocks(z.sys) == Blocks(a.sys)
    requires z.sys.flight == FlightAfter(a.sys.flight.batch, a.sys.flight.gasLimit, o)
    requires z == a.(sys := z.sys) && z.sys.core.pool == a.sys.core.pool
    ensures Balanced(z)
  {
    hide Bag, FlightAfter, NoDuplicates;
    BackIs(a.sys.flight.batch, a.sys.flight.gasLimit, o);
    if o.Produced? {
      GrownTxs(Blocks(a.sys), o.block);
    }
  }

  lemma CommitStepKeeps(
    c: SysConfig, base: World, a: Audited, timestamp: u64, commitOk: bool, writeOk: bool) returns (a': Audited)
    requires SysOk(c, base, a) && a.sys.flight.Popped?
    requires CommitOk(c, a.sys.core, a.sys.flight.batch, timestamp)
    ensures a' == a.(sys := CommitOf(c, a.sys, timestamp, commitOk, writeOk)) && SysOk(c, base, a')
    ensures Blocks(a.sys) <= Blocks(a'.sys)
  {
    hide ChainSound, BatchingOk, PoolOk, Balanced, ProduceNext, CommitOk, CommitOf, FlightAfter, NoDuplicates;
    var core, batch, gasLimit := a.sys.core, a.sys.flight.batch, a.sys.flight.gasLimit;
    var r := CommitChain(c, base, core, batch, timestamp, commitOk, writeOk);
    CommitForm(c, a.sys, timestamp, commitOk, writeOk, r);
    a' := a.(sys := CommitOf(c, a.sys, timestamp, commitOk, writeOk));
    if r.None? {
      HaltKeepsBalance(a);
    } else {
      var o := r.value.outcome;
      FlightAfterReturns(batch, gasLimit, o);
      if o.Produced? {
        HistorySnoc(core.node.history, PutBlock(o.block));
      }
      BatchingGrows(a.sys.batcher, a.sys.frame, Blocks(a.sys), Blocks(a'.sys));
      CommitBalances(a, a', o);
    }
  }

  lemma HaltKeepsBalance(a: Audited)
    requires Balanced(a)
    ensures Balanced(a.(sys := a.sys.(halted := true)))
  {}

  // ---------- runs ----------

  lemma StepKeepsOk(c: SysConfig, base: World, a: Audited, e: Event)
    requires SysOk(c, base, a) && EventOk(c, a, e)
    ensures SysOk(c, base, Step(c, a, e))
    ensures Blocks(a.sys) <= Blocks(Step(c, a, e).sys)
  {
    hide SysOk, CommitOk;
    if !a.sys.halted {
      match e
      case Submit(entry) => var next := SubmitKeeps(c, base, a, entry);
      case Pop => if a.sys.flight.Idle? { var next := PopKeeps(c, base, a); }
      case Commit(timestamp, commitOk, writeOk) =>
        if a.sys.flight.Popped? { var next := CommitStepKeeps(c, base, a, timestamp, commitOk, writeOk); }
      case PutBackOne =>
        if a.sys.flight.Returning? && a.sys.flight.queue != [] { var next := PutBackKeeps(c, base, a); }
      case Finish =>
        if a.sys.flight.Returning? && a.sys.flight.queue == [] { var next := FinishKeeps(c, base, a); }
      case Collect => if a.sys.frame.None? { var next := CollectKeeps(c, base, a); }
      case Observe(origin, writeOk) =>
        if a.sys.frame.Some? { var next := ObserveKeeps(c, base, a, origin, writeOk); }
      case Send(l1TxHash, size, writeOk) =>
        if a.sys.frame.Some? { var next := SendKeeps(c, base, a, l1TxHash, size, writeOk); }
      case Poll(answers) => if a.sys.frame.None? { var next := PollKeeps(c, base, a, answers); }
    }
  }

  ghost predicate RunOk(c: SysConfig, a: Audited, es: seq<Event>) {
    es != [] ==> RunOk(c, a, es[..|es| - 1]) && EventOk(c, Run(c, a, es[..|es| - 1]), es[|es| - 1])
  }

  /**
    * Safety of every interleaving of submissions, block steps and batch steps, for any
    * transactions and any EVM: the pool's index agrees with its lanes, the chain re-executes
    * to its own roots, the frames sent are the chain's own blocks in order, and every
    * accepted transaction is accounted for once.
    */
  lemma {:induction false} RunKeepsOk(c: SysConfig, base: World, a: Audited, es: seq<Event>)
    requires SysOk(c, base, a) && RunOk(c, a, es)
    ensures SysOk(c, base, Run(c, a, es))
  {
    hide SysOk;
    if es != [] {
      var front := es[..|es| - 1];
      RunKeepsOk(c, base, a, front);
      StepKeepsOk(c, base, Run(c, a, front), es[|es| - 1]);
    }
  }

  // ---------- when the process ends ----------

  /**
    * A step ends the process exactly if it produces on a tip whose record a batch record has
    * overwritten, or collects a frame that would hold a block overwritten that way.
    */
  lemma StepHaltsExactly(c: SysConfig, base: World, a: Audited, e: Event)
    requires SysOk(c, base, a) && !a.sys.halted
    ensures var ws, blocks := a.sys.core.node.history, Blocks(a.sys);
            Step(c, a, e).sys.halted <==>
              || (e.Commit? && a.sys.flight.Popped? && !Intact(ws, blocks, |blocks|))
              || (&& e.Collect? && a.sys.frame.None?
                  && exists k {:trigger Intact(ws, blocks, k)} ::
                       a.sys.batcher.lastBatchBlock < k <= |blocks| && !Intact(ws, blocks, k))
  {
    hide Balanced, PoolOk, ChainOk, Founded, PopStep, FinishStep, CommitOf, CollectOf, SendOf, AddEntry, AddOutcome, Intact;
    match e
    case Commit(timestamp, commitOk, writeOk) =>
      if a.sys.flight.Popped? { CommitHaltsExactly(c, base, a.sys, timestamp, commitOk, writeOk); }
    case Collect => CollectHaltsExactly(c, base, a.sys);
    case Send(l1TxHash, size, writeOk) => if a.sys.frame.Some? { SendGoesOn(a.sys, l1TxHash, size, writeOk); }
    case _ =>
  }

  lemma CommitHaltsExactly(c: SysConfig, base: World, sys: Sys, timestamp: u64, commitOk: bool, writeOk: bool)
    requires ChainSound(c, base, sys.core.node) && sys.flight.Popped? && !sys.halted
    ensures CommitOf(c, sys, timestamp, commitOk, writeOk).halted <==>
            !Intact(sys.core.node.history, Blocks(sys), |Blocks(sys)|)
  {
    hide ChainOk, Founded, ProduceNext;
    var txs, fee := TxsOf(sys.flight.batch), sys.core.fee.baseFee;
    var r := ProduceNext(c.chain, sys.core.node, txs, timestamp, fee, commitOk, writeOk);
    CommitForm(c, sys, timestamp, commitOk, writeOk, r);
    ProductionStopsExactly(c.chain, base, sys.core.node, txs, timestamp, fee, commitOk, writeOk);
  }

  lemma CollectHaltsExactly(c: SysConfig, base: World, sys: Sys)
    requires ChainSound(c, base, sys.core.node) && BatchingOk(sys.batcher, sys.frame, Blocks(sys)) && !sys.halted
    ensures var ws, blocks := sys.core.node.history, Blocks(sys);
            CollectOf(sys).halted <==>
              exists k {:trigger Intact(ws, blocks, k)} ::
                sys.batcher.lastBatchBlock < k <= |blocks| && !Intact(ws, blocks, k)
  {
    hide ChainOk, Founded, BatchesOk, FrameFor, Intact;
    NextFrameExact(c.chain, base, sys.batcher, sys.core.node);
  }

  lemma SendGoesOn(sys: Sys, l1TxHash: Option<Hash>, size: nat, writeOk: bool)
    requires sys.frame.Some?
    ensures SendOf(sys, l1TxHash, size, writeOk).halted == sys.halted
  {}

  // ---------- short chains ----------

  /** On a chain of fewer than 29,697 blocks no step ends the process and no frame is refused. */
  lemma StepNotHalted(c: SysConfig, base: World, a: Audited, e: Event)
    requires SysOk(c, base, a) && |Blocks(a.sys)| < 29697 && !a.sys.halted
    ensures !Step(c, a, e).sys.halted && !NextFrame(a.sys.batcher, a.sys.core.node).Corrupt?
  {
    hide Balanced, PoolOk, NodeOk, FinishStep, PopStep, Advance, NextFrameIs;
    NoFrameRefused(c, base, a.sys.batcher, a.sys.core.node);
    match e
    case Commit(timestamp, commitOk, writeOk) =>
      if a.sys.flight.Popped? {
        IntactBelowFirstClash(
          c.chain, base, a.sys.core.node, TxsOf(a.sys.flight.batch), timestamp, a.sys.core.fee.baseFee, commitOk, writeOk);
      }
    case _ =>
  }

  lemma NoFrameRefused(c: SysConfig, base: World, b: Batcher, n: Node)
    requires ChainSound(c, base, n) && BatchesOk(b, BlocksOf(n.history)) && |BlocksOf(n.history)| < 29697
    ensures !NextFrame(b, n).Corrupt?
  {
    hide NodeOk;
    NextFrameExact(c.chain, base, b, n);
    IntactBelowFirstClash(c.chain, base, n, [], 0, 0, true, true);
    var blocks := BlocksOf(n.history);
    forall k: int
      ensures Intact(n.history, blocks, k)
    {
      if 1 <= k <= |blocks| && k < U64 {
        var i: u64 := k;
        assert ChainStoreProofs.BlockUnder(n.history, i) == Found(blocks[i - 1]);
      }
    }
  }

  /** Over whole runs: until the chain has 29,697 blocks the sequencer keeps running. */
  lemma {:induction false} RunNotHalted(c: SysConfig, base: World, a: Audited, es: seq<Event>)
    requires SysOk(c, base, a) && RunOk(c, a, es) && !a.sys.halted
    requires |Blocks(Run(c, a, es).sys)| < 29697
    ensures !Run(c, a, es).sys.halted
    ensures !NextFrame(Run(c, a, es).sys.batcher, Run(c, a, es).sys.core.node).Corrupt?
  {
    hide SysOk;
    if es != [] {
      var front, last := es[..|es| - 1], es[|es| - 1];
      RunKeepsOk(c, base, a, front);
      StepKeepsOk(c, base, Run(c, a, front), last);
      RunNotHalted(c, base, a, front);
      StepNotHalted(c, base, Run(c, a, front), last);
    }
    RunKeepsOk(c, base, a, es);
    StepNotHalted(c, base, Run(c, a, es), Pop);
  }

  // ---------- no transaction is lost ----------

  /** A hash is in the pool, in flight, in a block, or among those whose re-add found the pool full. */
  ghost predicate Kept(a: Audited, h: Hash) {
    || h in a.sys.core.pool.known
    || h in HashesOf(FlightTxs(a.sys.flight))
    || h in HashesOf(ChainLaws.TxsIn(Blocks(a.sys)))
    || exists tx :: tx in a.lost && tx.hash == h
  }

  ghost predicate AllKept(a: Audited) {
    forall tx :: tx in a.accepted ==> Kept(a, tx.hash)
  }

  /** What was kept stays kept. */
  ghost predicate KeepsHashes(a: Audited, a': Audited) {
    forall h :: Kept(a, h) ==> Kept(a', h)
  }

  lemma SubmitKept(a: Audited, entry: Entry) returns (a': Audited)
    requires PoolOk(a.sys.core.pool)
    ensures a' == SubmitTo(a, entry) && KeepsHashes(a, a')
    ensures a'.accepted == a.accepted || (a'.accepted == a.accepted + multiset{entry.tx} && Kept(a', entry.tx.hash))
  {
    hide PoolOk;
    a' := SubmitTo(a, entry);
    AddOk(a.sys.core.pool, entry.tx, entry.sender, entry.score);
  }

  lemma PopKept(c: SysConfig, a: Audited) returns (a': Audited)
    requires PoolOk(a.sys.core.pool) && a.sys.flight.Idle?
    ensures a' == a.(sys := a.sys.(core := PopStep(c, a.sys.core).0, flight := PopStep(c, a.sys.core).1))
    ensures KeepsHashes(a, a')
  {
    hide PoolOk, PopBatch;
    var core := a.sys.core;
    var s := PopConserves(core.pool, MaxTx(c, core), GasLimit(c, core));
    BatchDistinct(s.batch);
    a' := a.(sys := a.sys.(core := core.(pool := s.pool), flight := Popped(s.batch, GasLimit(c, core))));
  }

  lemma HeadHash(queue: seq<Entry>)
    requires queue != []
    ensures HashesOf(TxsIn(queue)) == {queue[0].tx.hash} + HashesOf(TxsIn(queue[1..]))
  {
    assert TxsIn(queue) == [queue[0].tx] + TxsIn(queue[1..]);
  }

  lemma PutBackKept(a: Audited) returns (a': Audited)
    requires PoolOk(a.sys.core.pool) && a.sys.flight.Returning? && a.sys.flight.queue != []
    ensures a' == PutBackNext(a) && KeepsHashes(a, a')
  {
    hide PoolOk, Add, HashesOf;
    a' := PutBackNext(a);
    var queue := a.sys.flight.queue;
    HeadHash(queue);
    AddOk(a.sys.core.pool, queue[0].tx, queue[0].sender, queue[0].score);
    assert a.lost <= a'.lost;
  }

  lemma CommitKept(
    c: SysConfig, base: World, a: Audited, timestamp: u64, commitOk: bool, writeOk: bool) returns (a': Audited)
    requires SysOk(c, base, a) && a.sys.flight.Popped?
    requires CommitOk(c, a.sys.core, a.sys.flight.batch, timestamp)
    ensures a' == a.(sys := CommitOf(c, a.sys, timestamp, commitOk, writeOk)) && KeepsHashes(a, a')
  {
    hide ChainSound, BatchingOk, PoolOk, Bag, ProduceNext, CommitOk;
    var core, batch, gasLimit := a.sys.core, a.sys.flight.batch, a.sys.flight.gasLimit;
    var r := CommitChain(c, base, core, batch, timestamp, commitOk, writeOk);
    a' := a.(sys := CommitOf(c, a.sys, timestamp, commitOk, writeOk));
    if r.Some? {
      var o := r.value.outcome;
      BackIs(batch, gasLimit, o);
      if o.Produced? {
        HistorySnoc(core.node.history, PutBlock(o.block));
        GrownTxs(Blocks(a.sys), o.block);
        SplitHashes(TxsOf(batch), o.block.transactions, o.skipped);
        JoinHashes(ChainLaws.TxsIn(Blocks(a.sys)), o.block.transactions);
      }
    }
  }

  lemma JoinHashes(xs: seq<Tx>, ys: seq<Tx>)
    ensures HashesOf(xs + ys) == HashesOf(xs) + HashesOf(ys)
  {}

  lemma SplitHashes(txs: seq<Tx>, xs: seq<Tx>, ys: seq<Tx>)
    requires multiset(xs) + multiset(ys) == multiset(txs)
    ensures HashesOf(txs) == HashesOf(xs) + HashesOf(ys)
  {
    forall tx
      ensures tx in txs <==> tx in xs || tx in ys
    {
      assert tx in multiset(txs) <==> tx in txs;
      assert tx in multiset(xs) <==> tx in xs;
      assert tx in multiset(ys) <==> tx in ys;
    }
  }

  lemma StepKeepsHashes(c: SysConfig, base: World, a: Audited, e: Event)
    requires SysOk(c, base, a) && EventOk(c, a, e) && AllKept(a)
    ensures AllKept(Step(c, a, e))
  {
    hide Kept, CommitOk, ChainSound, BatchingOk, Balanced, PoolOk;
    if !a.sys.halted {
      match e
      case Submit(entry) => var next := SubmitKept(a, entry);
      case Pop => if a.sys.flight.Idle? { var next := PopKept(c, a); }
      case Commit(timestamp, commitOk, writeOk) =>
        if a.sys.flight.Popped? { var next := CommitKept(c, base, a, timestamp, commitOk, writeOk); }
      case PutBackOne =>
        if a.sys.flight.Returning? && a.sys.flight.queue != [] { var next := PutBackKept(a); }
      case _ =>
        RestSame(c, a, e);
        SameKept(a, Step(c, a, e));
    }
  }

  lemma SameKept(a: Audited, z: Audited)
    requires SameTxs(a, z)
    ensures KeepsHashes(a, z)
  {}

  /** Pool, transactions in flight, blocks and accounts are the same. */
  predicate SameTxs(a: Audited, z: Audited) {
    && z.sys.core.pool == a.sys.core.pool && FlightTxs(z.sys.flight) == FlightTxs(a.sys.flight)
    && Blocks(z.sys) == Blocks(a.sys)
    && z.accepted == a.accepted && z.lost == a.lost && z.repeated == a.repeated
  }

  lemma CollectTxs(sys: Sys)
    ensures CollectOf(sys).core == sys.core && CollectOf(sys).flight == sys.flight
  {
    hide NextFrame;
  }

  lemma ObserveTxs(n: Node, origin: L1Origin, writeOk: bool)
    ensures BlocksOf(SetL1Origin(n, origin, writeOk).history) == BlocksOf(n.history)
  {
    hide BlocksOf;
    HistorySnoc(n.history, PutL1Origin(origin));
  }

  lemma SendTxs(sys: Sys, l1TxHash: Option<Hash>, size: nat, writeOk: bool)
    requires sys.frame.Some?
    ensures var z := SendOf(sys, l1TxHash, size, writeOk);
            && z.core.pool == sys.core.pool && z.flight == sys.flight
            && BlocksOf(z.core.node.history) == BlocksOf(sys.core.node.history)
  {
    hide BlocksOf, RecordOf, Advance;
    if l1TxHash.Some? {
      HistorySnoc(sys.core.node.history, PutBatch(RecordOf(sys.batcher, sys.frame.value, l1TxHash.value, size)));
    }
  }

  /** The other steps touch neither pool nor flight nor blocks. */
  lemma RestSame(c: SysConfig, a: Audited, e: Event)
    requires e.Finish? || e.Collect? || e.Observe? || e.Send? || e.Poll?
    ensures SameTxs(a, Step(c, a, e))
  {
    hide FinishStep, CollectOf, SendOf, SetL1Origin, Confirm, BlocksOf;
    match e
    case Collect => CollectTxs(a.sys);
    case Observe(origin, writeOk) => ObserveTxs(a.sys.core.node, origin, writeOk);
    case Send(l1TxHash, size, writeOk) => if a.sys.frame.Some? { SendTxs(a.sys, l1TxHash, size, writeOk); }
    case Finish => if a.sys.flight.Returning? { FinishPool(c, a.sys.core, a.sys.flight); }
    case _ =>
  }

  /**
    * No transaction is lost: over any interleaving, every transaction the pool accepted is
    * by its hash in the pool, in flight or in a block, unless its re-add found the pool full.
    */
  lemma {:induction false} NoTransactionLost(c: SysConfig, base: World, a: Audited, es: seq<Event>)
    requires SysOk(c, base, a) && RunOk(c, a, es) && AllKept(a)
    ensures AllKept(Run(c, a, es))
  {
    hide SysOk, AllKept;
    if es != [] {
      var front := es[..|es| - 1];
      NoTransactionLost(c, base, a, front);
      RunKeepsOk(c, base, a, front);
      StepKeepsHashes(c, base, Run(c, a, front), es[|es| - 1]);
    }
  }
}
