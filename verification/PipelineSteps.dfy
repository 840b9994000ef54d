/** Stretches of a run in which nothing interrupts the producer: putting back a queue, and a whole block step. */
module PipelineSteps {
  import opened Common
  import opened Transactions
  import opened LanePool
  import opened LaneConservation
  import opened Producing
  import FeeModel
  import opened ChainStore
  import opened ChainState
  import opened Batching
  import opened Pipeline
  import opened PipelineProofs

  lemma {:induction false} ReAddHead(p: Pool, es: seq<Entry>)
    requires es != []
    ensures ReAdd(p, es) == ReAdd(AddEntry(p, es[0]), es[1..])
    decreases |es|
  {
    if |es| == 1 {
      assert es[..0] == [];
    } else {
      var front := es[..|es| - 1];
      ReAddHead(p, front);
      assert es[1..][..|es| - 2] == front[1..];
    }
  }

  function Times(n: nat): seq<Event> {
    if n == 0 then [] else Times(n - 1) + [PutBackOne]
  }

  lemma {:induction false} RunSplit(c: SysConfig, a: Audited, xs: seq<Event>, ys: seq<Event>)
    ensures Run(c, a, xs + ys) == Run(c, Run(c, a, xs), ys)
  {
    if ys == [] {
      assert xs + ys == xs;
    } else {
      assert (xs + ys)[..|xs + ys| - 1] == xs + ys[..|ys| - 1];
      RunSplit(c, a, xs, ys[..|ys| - 1]);
    }
  }

  /** The system with its queue put back. */
  function Emptied(a: Audited): Audited
    requires a.sys.flight.Returning?
  {
    var core := a.sys.core;
    a.(sys := a.sys.(
      core := core.(pool := ReAdd(core.pool, a.sys.flight.queue)), flight := a.sys.flight.(queue := [])))
  }

  lemma {:induction false} TimesHead(n: nat)
    requires n > 0
    ensures Times(n) == [PutBackOne] + Times(n - 1)
  {
    if n > 1 {
      TimesHead(n - 1);
    }
  }

  lemma SnocStep(c: SysConfig, a: Audited, es: seq<Event>, e: Event)
    ensures Run(c, a, es + [e]) == Step(c, Run(c, a, es), e)
    ensures Run(c, a, [e]) == Step(c, a, e)
  {
    assert (es + [e])[..|es|] == es;
    assert [e][..0] == [];
  }

  // ---------- putting back ----------

  function Room(p: Pool): nat {
    Max(p.maxSize - p.queues.Size(), 0)
  }

  /** Distinct entries that the pool does not know. */
  ghost predicate Fresh(p: Pool, es: seq<Entry>) {
    DistinctTxs(TxsIn(es)) && HashesOf(TxsIn(es)) !! p.known.Keys
  }

  /** Of a fresh queue, what finds no room. */
  function Overflow(p: Pool, es: seq<Entry>): seq<Tx> {
    TxsIn(es)[Min(|es|, Room(p))..]
  }

  lemma FreshTail(p: Pool, es: seq<Entry>)
    requires Fresh(p, es) && es != []
    ensures es[0].tx.hash !in p.known && TxsIn(es) == [es[0].tx] + TxsIn(es[1..])
    ensures Fresh(p, es[1..]) && es[0].tx.hash !in HashesOf(TxsIn(es[1..]))
  {
    var txs, rest := TxsIn(es), TxsIn(es[1..]);
    assert txs == [es[0].tx] + rest;
    assert txs[0] in txs && forall tx :: tx in rest ==> tx in txs;
    forall i, j | 0 <= i < j < |rest|
      ensures rest[i].hash != rest[j].hash
    {
      assert txs[i + 1].hash != txs[j + 1].hash;
    }
    forall tx | tx in rest
      ensures tx.hash != es[0].tx.hash
    {
      var i :| 0 <= i < |rest| && rest[i] == tx;
      assert txs[0].hash != txs[i + 1].hash;
    }
  }

  /** The system with a fresh queue put back: what finds no room is lost, the last entries first. */
  ghost function Refilled(a: Audited): Audited
    requires a.sys.flight.Returning?
  {
    Emptied(a).(lost := a.lost + multiset(Overflow(a.sys.core.pool, a.sys.flight.queue)))
  }

  /** One re-add from a fresh queue: accepted if there is room, lost if there is none. */
  lemma OverflowHead(p: Pool, es: seq<Entry>)
    requires Fresh(p, es) && es != []
    ensures AddOutcome(p, es[0].tx) == (if Room(p) > 0 then Added else PoolFull)
    ensures multiset(Overflow(p, es)) ==
            multiset(Overflow(AddEntry(p, es[0]), es[1..])) + (if Room(p) > 0 then multiset{} else multiset{es[0].tx})
    ensures Fresh(AddEntry(p, es[0]), es[1..])
  {
    hide Bag, Insert, DistinctTxs;
    FreshTail(p, es);
    AddBag(p, es[0].tx, es[0].sender, es[0].score);
    if Room(p) > 0 {
      assert Overflow(AddEntry(p, es[0]), es[1..]) == Overflow(p, es);
    } else {
      assert Overflow(p, es) == [es[0].tx] + Overflow(p, es[1..]);
    }
  }

  lemma PutBackHead(c: SysConfig, a: Audited) returns (z: Audited)
    requires a.sys.flight.Returning? && a.sys.flight.queue != [] && !a.sys.halted
    requires Fresh(a.sys.core.pool, a.sys.flight.queue)
    ensures z == Step(c, a, PutBackOne) && !z.sys.halted && z.sys.flight.Returning?
    ensures z.sys.flight.queue == a.sys.flight.queue[1..] && Refilled(z) == Refilled(a)
    ensures Fresh(z.sys.core.pool, z.sys.flight.queue)
  {
    hide AddEntry, AddOutcome, Fresh, Overflow, ReAdd, Room;
    z := PutBackNext(a);
    OverflowHead(a.sys.core.pool, a.sys.flight.queue);
    ReAddHead(a.sys.core.pool, a.sys.flight.queue);
  }

  /**
    * Putting back a fresh queue without interruption loses exactly what finds no room, last
    * entries first to go; the pool is the same as if all had been added.
    */
  lemma {:induction false} PutBackExactly(c: SysConfig, a: Audited, n: nat)
    requires a.sys.flight.Returning? && |a.sys.flight.queue| == n && !a.sys.halted
    requires Fresh(a.sys.core.pool, a.sys.flight.queue)
    ensures Run(c, a, Times(n)) == Refilled(a)
    decreases n
  {
    if n > 0 {
      hide Fresh, Refilled, Step;
      var z := PutBackHead(c, a);
      PutBackExactly(c, z, n - 1);
      TimesHead(n);
      SnocStep(c, a, [], PutBackOne);
      RunSplit(c, a, [PutBackOne], Times(n - 1));
    } else {
      assert a.sys.flight.queue == [];
    }
  }

  lemma OverflowSize(p: Pool, es: seq<Entry>)
    ensures |Overflow(p, es)| == |es| - Min(|es|, Room(p))
    ensures multiset(Overflow(p, es)) <= multiset(TxsIn(es))
  {
    var k := Min(|es|, Room(p));
    assert TxsIn(es) == TxsIn(es)[..k] + TxsIn(es)[k..];
  }

  /**
    * As many single re-adds as there are entries empty the queue into the pool, first to
    * last; entries that fit are all accepted, so none is lost or dropped as a repeat.
    */
  lemma PutBackAll(c: SysConfig, a: Audited, n: nat)
    requires a.sys.flight.Returning? && |a.sys.flight.queue| == n && !a.sys.halted
    requires Fits(a.sys.core.pool, a.sys.flight.queue)
    ensures Run(c, a, Times(n)) == Emptied(a)
  {
    hide Run, ReAdd, DistinctTxs, HashesOf;
    PutBackExactly(c, a, n);
    OverflowSize(a.sys.core.pool, a.sys.flight.queue);
    assert Overflow(a.sys.core.pool, a.sys.flight.queue) == [];
  }

  // ---------- one block step without interruption ----------

  /** After the commit: the committed core, and what is to be put back. */
  lemma PopAndCommit(c: SysConfig, a: Audited, timestamp: u64, commitOk: bool, writeOk: bool) returns (z: Audited)
    requires a.sys.flight.Idle? && !a.sys.halted && PoolOk(a.sys.core.pool)
    requires ProduceBlock(c, a.sys.core, timestamp, commitOk, writeOk).Some?
    ensures z == Run(c, a, [Pop, Commit(timestamp, commitOk, writeOk)])
    ensures z == a.(sys := a.sys.(core := z.sys.core, flight := z.sys.flight)) && z.sys.flight.Returning?
    ensures PoolOk(z.sys.core.pool) && Fits(z.sys.core.pool, z.sys.flight.queue)
    ensures var core := z.sys.core;
            ProduceBlock(c, a.sys.core, timestamp, commitOk, writeOk).value.0 ==
            FinishStep(c, core.(pool := ReAdd(core.pool, z.sys.flight.queue)), z.sys.flight.usage)
  {
    hide PopBatch, ProduceNext, FinishStep, ReAdd, PoolOk, Fits, FlightAfter;
    var commit := Commit(timestamp, commitOk, writeOk);
    z := Step(c, Step(c, a, Pop), commit);
    SnocStep(c, a, [Pop], commit);
    SnocStep(c, a, [], Pop);
    assert [Pop] + [commit] == [Pop, commit];
    StepBack(c, a.sys.core, timestamp, commitOk, writeOk);
    var (popped, flight) := PopStep(c, a.sys.core);
    var committed := CommitStep(c, popped, flight.batch, flight.gasLimit, timestamp, commitOk, writeOk);
    FlightAfterReturns(flight.batch, flight.gasLimit, committed.value.2);
  }

  /** What an uninterrupted step puts back fits, and with it the pool conserves: before is after plus the block. */
  lemma StepBack(c: SysConfig, core: Core, timestamp: u64, commitOk: bool, writeOk: bool)
    requires PoolOk(core.pool) && ProduceBlock(c, core, timestamp, commitOk, writeOk).Some?
    ensures var (popped, flight) := PopStep(c, core);
            var o := ProduceBlock(c, core, timestamp, commitOk, writeOk).value.1;
            var queue := FlightAfter(flight.batch, flight.gasLimit, o).queue;
            && CommitStep(c, popped, flight.batch, flight.gasLimit, timestamp, commitOk, writeOk).value.2 == o
            && PoolOk(popped.pool) && Fits(popped.pool, queue)
            && PoolOk(ReAdd(popped.pool, queue))
            && Bag(core.pool.queues) ==
               Bag(ReAdd(popped.pool, queue).queues) + (if o.Produced? then multiset(o.block.transactions) else multiset{})
  {
    hide PopBatch, ReAdd, PoolOk, Fits, Bag, FinishStep, ExecuteAndCommitBlock;
    var maxTx, gasLimit := MaxTx(c, core), GasLimit(c, core);
    var s := PopConserves(core.pool, maxTx, gasLimit);
    var parent := BlockHashAt(core.node.history, core.node.number);
    ProducedAligned(
      c.chain, core.node, s.batch, Wrap64(core.node.number + 1), timestamp, parent.value, core.fee.baseFee, commitOk, writeOk);
    var o := ProduceBlock(c, core, timestamp, commitOk, writeOk).value.1;
    if o.Produced? {
      var t, q := SuccessConserves(core.pool, maxTx, gasLimit, o.block.transactions, o.skipped);
    } else {
      var t, q := FailureConserves(core.pool, maxTx, gasLimit);
      assert Bag(q.queues) + multiset{} == Bag(q.queues);
    }
  }

  /**
    * One produceBlock with no Add in between conserves the pool: what it held before is what
    * it holds after, plus the block's transactions if there is a block.
    */
  lemma ProduceBlockConserves(c: SysConfig, core: Core, timestamp: u64, commitOk: bool, writeOk: bool)
    requires PoolOk(core.pool) && ProduceBlock(c, core, timestamp, commitOk, writeOk).Some?
    ensures var (done, o) := ProduceBlock(c, core, timestamp, commitOk, writeOk).value;
            && PoolOk(done.pool)
            && Bag(core.pool.queues) ==
               Bag(done.pool.queues) + (if o.Produced? then multiset(o.block.transactions) else multiset{})
  {
    hide PopBatch, ProduceNext, ReAdd, PoolOk, Fits, Bag, FinishStep;
    StepBack(c, core, timestamp, commitOk, writeOk);
    var (popped, flight) := PopStep(c, core);
    var (done, back, o) := CommitStep(c, popped, flight.batch, flight.gasLimit, timestamp, commitOk, writeOk).value;
    FinishLeavesPool(c, done.(pool := ReAdd(done.pool, back.queue)), back.usage);
  }

  lemma FinishLeavesPool(c: SysConfig, core: Core, usage: Option<FeeModel.Usage>)
    ensures FinishStep(c, core, usage).pool == core.pool
  {}

  /**
    * The producer's call is one of the machine's interleavings: pop, commit, put back one by
    * one, finish.  Uninterrupted, it changes none of the accounts: nothing is accepted anew,
    * lost or dropped as a repeat.
    */
  lemma ProduceIsARun(c: SysConfig, a: Audited, timestamp: u64, commitOk: bool, writeOk: bool) returns (n: nat)
    requires a.sys.flight.Idle? && !a.sys.halted && PoolOk(a.sys.core.pool)
    requires ProduceBlock(c, a.sys.core, timestamp, commitOk, writeOk).Some?
    ensures var done := ProduceBlock(c, a.sys.core, timestamp, commitOk, writeOk).value.0;
            Run(c, a, [Pop, Commit(timestamp, commitOk, writeOk)] + Times(n) + [Finish]) ==
            a.(sys := a.sys.(core := done))
  {
    hide ProduceBlock, FinishStep, ReAdd, Run, PoolOk, Fits;
    var head := [Pop, Commit(timestamp, commitOk, writeOk)];
    var z := PopAndCommit(c, a, timestamp, commitOk, writeOk);
    n := |z.sys.flight.queue|;
    PutBackAll(c, z, n);
    RunSplit(c, a, head, Times(n));
    SnocStep(c, a, head + Times(n), Finish);
  }

  // ---------- one submission without interruption ----------

  /** What a submission does, one step after the other: collect, note the L1 block if there is an answer, send. */
  function SubmissionSteps(s: Submission): seq<Event> {
    [Collect] +
    (if s.l1Block.Some? then [Observe(L1Origin(s.l1Block.value.0, s.l1Block.value.1, s.now), s.originOk)] else []) +
    [Send(s.sent, s.size, s.batchOk)]
  }

  /** The machine after those steps. */
  function Submitted(c: SysConfig, a: Audited, s: Submission): Audited {
    var collected := Step(c, a, Collect);
    var observed :=
      if s.l1Block.None? then collected
      else Step(c, collected, Observe(L1Origin(s.l1Block.value.0, s.l1Block.value.1, s.now), s.originOk));
    Step(c, observed, Send(s.sent, s.size, s.batchOk))
  }

  lemma SubmittedIsRun(c: SysConfig, a: Audited, s: Submission)
    ensures Run(c, a, SubmissionSteps(s)) == Submitted(c, a, s)
  {
    hide Run, Step;
    var send := Send(s.sent, s.size, s.batchOk);
    SnocStep(c, a, [], Collect);
    assert [] + [Collect] == [Collect];
    if s.l1Block.Some? {
      var observe := Observe(L1Origin(s.l1Block.value.0, s.l1Block.value.1, s.now), s.originOk);
      SnocStep(c, a, [Collect], observe);
      SnocStep(c, a, [Collect] + [observe], send);
    } else {
      assert [Collect] + [] + [send] == [Collect] + [send];
      SnocStep(c, a, [Collect], send);
    }
  }

  /** With nothing to send, or a nil header met, the later steps are not enabled. */
  lemma NothingSubmitted(c: SysConfig, a: Audited, s: Submission)
    requires a.sys.frame.None? && !a.sys.halted && !NextFrame(a.sys.batcher, a.sys.core.node).Found?
    ensures Submitted(c, a, s) == a.(sys := a.sys.(halted := NextFrame(a.sys.batcher, a.sys.core.node).Corrupt?))
  {
    hide NextFrame, SendOf, SetL1Origin;
  }

  lemma FrameSubmitted(c: SysConfig, a: Audited, s: Submission)
    requires a.sys.frame.None? && !a.sys.halted && NextFrame(a.sys.batcher, a.sys.core.node).Found?
    ensures var f, n := NextFrame(a.sys.batcher, a.sys.core.node).value, OriginStep(a.sys.core.node, s);
            Submitted(c, a, s) ==
            a.(sys := SendOf(a.sys.(frame := Some(f), core := a.sys.core.(node := n)), s.sent, s.size, s.batchOk))
  {
    hide NextFrame, SendOf, SetL1Origin;
  }

  /**
    * The batcher's call is one of the machine's interleavings too: uninterrupted, those steps
    * leave batcher and chain as the submission does, or end the process if it does.
    */
  lemma SubmitIsARun(c: SysConfig, a: Audited, s: Submission)
    requires a.sys.frame.None? && !a.sys.halted
    ensures var z := Run(c, a, SubmissionSteps(s));
            match SubmitBatch(a.sys.batcher, a.sys.core.node, s)
            case None => z == a.(sys := a.sys.(halted := true))
            case Some((b, n)) => z == a.(sys := a.sys.(batcher := b, core := a.sys.core.(node := n)))
  {
    hide NextFrame, OriginStep, RecordOf, Advance, AddBatch, Run, SubmissionSteps, Submitted;
    SubmittedIsRun(c, a, s);
    if NextFrame(a.sys.batcher, a.sys.core.node).Found? {
      FrameSubmitted(c, a, s);
    } else {
      NothingSubmitted(c, a, s);
    }
  }
}
