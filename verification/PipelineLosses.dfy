/**
  * When a transaction is lost to a full pool: never while what is queued and in flight
  * fits, and after a failed step exactly what exceeds the room.
  */
module PipelineLosses {
  import opened Common
  import opened Transactions
  import opened Ledger
  import opened Execution
  import opened LanePool
  import opened LaneConservation
  import opened Producing
  import opened ChainState
  import Batching
  import opened Pipeline
  import opened PipelineProofs
  import opened PipelineSteps

  /** What the pool has to hold if everything in flight comes back. */
  function Held(a: Audited): nat {
    a.sys.core.pool.queues.Size() + |FlightTxs(a.sys.flight)|
  }

  /** A step adds to it no more than it accepts, and loses something only if it exceeds the pool. */
  ghost predicate LosesOnlyOverflow(a: Audited, z: Audited) {
    && |a.accepted| <= |z.accepted|
    && Held(z) - Held(a) <= |z.accepted| - |a.accepted|
    && z.sys.core.pool.maxSize == a.sys.core.pool.maxSize
    && (z.lost == a.lost || Held(a) > a.sys.core.pool.maxSize)
  }

  lemma SubmitOverflow(a: Audited, entry: Entry)
    ensures LosesOnlyOverflow(a, SubmitTo(a, entry))
  {
    hide Bag, Insert;
    AddBag(a.sys.core.pool, entry.tx, entry.sender, entry.score);
  }

  lemma PopOverflow(c: SysConfig, a: Audited)
    requires PoolOk(a.sys.core.pool) && a.sys.flight.Idle?
    ensures LosesOnlyOverflow(a, a.(sys := a.sys.(core := PopStep(c, a.sys.core).0, flight := PopStep(c, a.sys.core).1)))
  {
    hide PoolOk, PopBatch, Bag;
    var s := PopConserves(a.sys.core.pool, MaxTx(c, a.sys.core), GasLimit(c, a.sys.core));
  }

  lemma PutBackOverflow(a: Audited)
    requires a.sys.flight.Returning? && a.sys.flight.queue != []
    ensures LosesOnlyOverflow(a, PutBackNext(a))
  {
    hide Bag, Insert;
    var e := a.sys.flight.queue[0];
    AddBag(a.sys.core.pool, e.tx, e.sender, e.score);
  }

  lemma CommitOverflow(c: SysConfig, base: World, a: Audited, timestamp: u64, commitOk: bool, writeOk: bool)
    requires SysOk(c, base, a) && a.sys.flight.Popped? && CommitOk(c, a.sys.core, a.sys.flight.batch, timestamp)
    ensures LosesOnlyOverflow(a, a.(sys := CommitOf(c, a.sys, timestamp, commitOk, writeOk)))
  {
    hide ChainSound, BatchingOk, PoolOk, Balanced, ProduceNext, CommitOk, CommitOf, FlightAfter, NoDuplicates;
    var batch, gasLimit := a.sys.flight.batch, a.sys.flight.gasLimit;
    var r := CommitChain(c, base, a.sys.core, batch, timestamp, commitOk, writeOk);
    CommitForm(c, a.sys, timestamp, commitOk, writeOk, r);
    if r.Some? {
      BackIs(batch, gasLimit, r.value.outcome);
      if r.value.outcome.Produced? {
        PartShorter(r.value.outcome.block.transactions, r.value.outcome.skipped, TxsOf(batch));
      }
    }
  }

  lemma PartShorter(xs: seq<Tx>, ys: seq<Tx>, txs: seq<Tx>)
    requires multiset(xs) + multiset(ys) == multiset(txs)
    ensures |ys| <= |txs|
  {
    assert |multiset(xs)| + |multiset(ys)| == |multiset(txs)|;
  }

  lemma StepOverflow(c: SysConfig, base: World, a: Audited, e: Event)
    requires SysOk(c, base, a) && EventOk(c, a, e)
    ensures LosesOnlyOverflow(a, Step(c, a, e))
  {
    hide SysOk, CommitOk, PopStep, CommitOf, FinishStep, CollectOf, SendOf, LosesOnlyOverflow;
    SameOverflow(a, a);
    if !a.sys.halted {
      match e
      case Submit(entry) => SubmitOverflow(a, entry);
      case Pop => if a.sys.flight.Idle? { PoolIsOk(c, base, a); PopOverflow(c, a); }
      case Commit(timestamp, commitOk, writeOk) =>
        if a.sys.flight.Popped? { CommitOverflow(c, base, a, timestamp, commitOk, writeOk); }
      case PutBackOne => if a.sys.flight.Returning? && a.sys.flight.queue != [] { PutBackOverflow(a); }
      case _ =>
        RestSame(c, a, e);
        SameOverflow(a, Step(c, a, e));
    }
  }

  lemma PoolIsOk(c: SysConfig, base: World, a: Audited)
    requires SysOk(c, base, a)
    ensures PoolOk(a.sys.core.pool)
  {}

  lemma SameOverflow(a: Audited, z: Audited)
    requires SameTxs(a, z)
    ensures LosesOnlyOverflow(a, z)
  {}

  /**
    * Over any stretch of any run: as long as the submissions accepted in it number at most
    * the room that what is queued and in flight leaves at its start, no re-add is refused
    * for want of room.
    */
  lemma {:induction false} NothingLostWithinRoom(c: SysConfig, base: World, a: Audited, es: seq<Event>)
    requires SysOk(c, base, a) && RunOk(c, a, es)
    requires Held(a) + |Run(c, a, es).accepted| - |a.accepted| <= a.sys.core.pool.maxSize
    ensures Run(c, a, es).lost == a.lost
  {
    hide SysOk, Held, Step;
    HeldWithin(c, base, a, es);
    if es != [] {
      var front, last := es[..|es| - 1], es[|es| - 1];
      RunKeepsOk(c, base, a, front);
      HeldWithin(c, base, a, front);
      StepOverflow(c, base, Run(c, a, front), last);
      NothingLostWithinRoom(c, base, a, front);
    }
  }

  lemma {:induction false} HeldWithin(c: SysConfig, base: World, a: Audited, es: seq<Event>)
    requires SysOk(c, base, a) && RunOk(c, a, es)
    ensures var z := Run(c, a, es);
            && |a.accepted| <= |z.accepted| && z.sys.core.pool.maxSize == a.sys.core.pool.maxSize
            && Held(z) - Held(a) <= |z.accepted| - |a.accepted|
  {
    hide SysOk, Held, Step;
    if es != [] {
      var front, last := es[..|es| - 1], es[|es| - 1];
      HeldWithin(c, base, a, front);
      RunKeepsOk(c, base, a, front);
      StepOverflow(c, base, Run(c, a, front), last);
    }
  }

  // ---------- a failed step ----------

  function PoppedTxs(c: SysConfig, core: Core): seq<Tx> {
    TxsOf(PopBatch(core.pool, MaxTx(c, core), GasLimit(c, core)).batch)
  }

  predicate WithinSize(p: Pool) {
    p.queues.Size() <= Max(p.maxSize, 0)
  }

  /** Submissions of other transactions than those in flight. */
  ghost predicate OthersOnly(es: seq<Event>, txs: seq<Tx>) {
    forall e :: e in es ==> e.Submit? && forall tx :: tx in txs ==> tx.hash != e.entry.tx.hash
  }

  lemma {:induction false} SubmitsOnly(c: SysConfig, a: Audited, es: seq<Event>, txs: seq<Tx>)
    requires OthersOnly(es, txs) && !a.sys.halted && HashesOf(txs) !! a.sys.core.pool.known.Keys
    requires WithinSize(a.sys.core.pool)
    ensures var z := Run(c, a, es);
            && z == a.(sys := z.sys, accepted := z.accepted)
            && z.sys == a.sys.(core := a.sys.core.(pool := z.sys.core.pool))
            && HashesOf(txs) !! z.sys.core.pool.known.Keys
            && z.sys.core.pool.maxSize == a.sys.core.pool.maxSize && WithinSize(z.sys.core.pool)
            && z.sys.core.pool.queues.Size() - a.sys.core.pool.queues.Size() == |z.accepted| - |a.accepted| >= 0
  {
    if es != [] {
      var front, last := es[..|es| - 1], es[|es| - 1];
      assert last in es && forall e :: e in front ==> e in es;
      SubmitsOnly(c, a, front, txs);
      SubmitOther(Run(c, a, front), last.entry, txs);
    }
  }

  lemma SubmitOther(a: Audited, entry: Entry, txs: seq<Tx>)
    requires HashesOf(txs) !! a.sys.core.pool.known.Keys && WithinSize(a.sys.core.pool)
    requires forall tx :: tx in txs ==> tx.hash != entry.tx.hash
    ensures var z := SubmitTo(a, entry);
            && HashesOf(txs) !! z.sys.core.pool.known.Keys
            && z.sys.core.pool.maxSize == a.sys.core.pool.maxSize && WithinSize(z.sys.core.pool)
            && z.sys.core.pool.queues.Size() - a.sys.core.pool.queues.Size() == |z.accepted| - |a.accepted| >= 0
  {
    hide Bag, Insert;
    AddBag(a.sys.core.pool, entry.tx, entry.sender, entry.score);
  }

  /** A commit whose state or block cannot be stored sends the whole batch back, anonymously. */
  lemma FailedCommit(c: SysConfig, sys: Sys, timestamp: u64, commitOk: bool, writeOk: bool)
    requires sys.flight.Popped? && !(commitOk && writeOk)
    requires BlockHashAt(sys.core.node.history, sys.core.node.number).Some?
    ensures var z := CommitOf(c, sys, timestamp, commitOk, writeOk);
            && z == sys.(core := sys.core.(node := z.core.node), flight := Returning(Anonymous(TxsOf(sys.flight.batch)), None))
  {
    hide Execute, CtxOf, Save;
  }

  ghost predicate FailedAfter(a: Audited, z: Audited, txs: seq<Tx>, n: nat, k: nat) {
    && !z.sys.halted && z.lost == a.lost && z.repeated == a.repeated
    && z.sys.flight == Returning(Anonymous(txs), None) && |txs| == n
    && Fresh(z.sys.core.pool, z.sys.flight.queue)
    && z.sys.core.pool.maxSize == a.sys.core.pool.maxSize && WithinSize(z.sys.core.pool)
    && z.sys.core.pool.queues.Size() + n == a.sys.core.pool.queues.Size() + k
  }

  lemma AnonymousTxs(txs: seq<Tx>)
    ensures TxsIn(Anonymous(txs)) == txs
  {}

  /** The run up to the failed commit: the batch is to go back, and the room has shrunk by k. */
  lemma FailedRun(
    c: SysConfig, a: Audited, submits: seq<Event>, timestamp: u64, commitOk: bool, writeOk: bool)
    returns (n: nat, k: nat)
    requires PoolOk(a.sys.core.pool) && a.sys.flight.Idle? && !a.sys.halted
    requires OthersOnly(submits, PoppedTxs(c, a.sys.core)) && !(commitOk && writeOk)
    requires BlockHashAt(a.sys.core.node.history, a.sys.core.node.number).Some?
    ensures k == |Run(c, a, [Pop] + submits).accepted| - |a.accepted|
    ensures var z := Run(c, a, [Pop] + submits + [Commit(timestamp, commitOk, writeOk)]);
            FailedAfter(a, z, PoppedTxs(c, a.sys.core), n, k)
  {
    hide PoolOk, PopBatch, Bag, CommitOf, Run;
    var s := PopConserves(a.sys.core.pool, MaxTx(c, a.sys.core), GasLimit(c, a.sys.core));
    var txs, commit := TxsOf(s.batch), Commit(timestamp, commitOk, writeOk);
    BatchDistinct(s.batch);
    PoolSize(s.pool);
    SnocStep(c, a, [], Pop);
    RunSplit(c, a, [Pop], submits);
    SubmitsOnly(c, Step(c, a, Pop), submits, txs);
    var ready := Run(c, a, [Pop] + submits);
    FailedCommit(c, ready.sys, timestamp, commitOk, writeOk);
    SnocStep(c, a, [Pop] + submits, commit);
    AnonymousTxs(txs);
    n, k := |s.batch|, |ready.accepted| - |a.accepted|;
  }

  /**
    * A failed step loses exactly as many of the popped transactions as the submissions
    * accepted between pop and commit exceed the room there was before the pop: none if and
    * only if they do not exceed it.
    */
  lemma FailureLosesExactly(
    c: SysConfig, a: Audited, submits: seq<Event>, timestamp: u64, commitOk: bool, writeOk: bool)
    returns (n: nat, k: nat)
    requires PoolOk(a.sys.core.pool) && a.sys.flight.Idle? && !a.sys.halted
    requires OthersOnly(submits, PoppedTxs(c, a.sys.core)) && !(commitOk && writeOk)
    requires BlockHashAt(a.sys.core.node.history, a.sys.core.node.number).Some?
    ensures k == |Run(c, a, [Pop] + submits).accepted| - |a.accepted|
    ensures var z := Run(c, a, [Pop] + submits + [Commit(timestamp, commitOk, writeOk)] + Times(n));
            && z.sys.flight == Returning([], None) && z.repeated == a.repeated
            && a.lost <= z.lost && z.lost - a.lost <= multiset(PoppedTxs(c, a.sys.core))
            && |z.lost| - |a.lost| == Max(0, k - Room(a.sys.core.pool))
  {
    hide PoolOk, PoppedTxs, Run, Fresh, Overflow, ReAdd;
    var txs := PoppedTxs(c, a.sys.core);
    n, k := FailedRun(c, a, submits, timestamp, commitOk, writeOk);
    var failed := Run(c, a, [Pop] + submits + [Commit(timestamp, commitOk, writeOk)]);
    PutBackExactly(c, failed, n);
    RunSplit(c, a, [Pop] + submits + [Commit(timestamp, commitOk, writeOk)], Times(n));
    PoolSize(a.sys.core.pool);
    AnonymousTxs(txs);
    OverflowSize(failed.sys.core.pool, failed.sys.flight.queue);
  }

  lemma PoolSize(p: Pool)
    requires PoolOk(p)
    ensures WithinSize(p)
  {}
}
