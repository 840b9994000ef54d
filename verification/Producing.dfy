/** One block step over pool, chain and controllers: what is popped, put back and fed to the controllers. */
module Producing {
  import opened Common
  import opened Transactions
  import opened Ledger
  import opened Execution
  import BlockProofs
  import opened LanePool
  import opened LanePoolProofs
  import opened LaneConservation
  import LaneShares
  import opened ChainState
  import ChainProofs

  const NO_SENDER: Address := [0, 0, 0, 0, 0, 0, 0, 0, 0, 0, 0, 0, 0, 0, 0, 0, 0, 0, 0, 0]

  /** One call of the pool's Add. */
  datatype Entry = Entry(tx: Tx, sender: Address, score: real)

  function Anonymous(txs: seq<Tx>): (es: seq<Entry>)
    ensures |es| == |txs|
  {
    seq(|txs|, i requires 0 <= i < |txs| => Entry(txs[i], NO_SENDER, 0.0))
  }

  function MetaOf(batch: seq<TxMeta>, h: Hash): Option<TxMeta> {
    if batch == [] then None
    else if batch[0].tx.hash == h then Some(batch[0])
    else MetaOf(batch[1..], h)
  }

  /** Skipped transactions with the sender and score of their entry in the batch. */
  function Returned(batch: seq<TxMeta>, skipped: seq<Tx>): seq<Entry> {
    if skipped == [] then []
    else
      var tx := skipped[|skipped| - 1];
      var found := MetaOf(batch, tx.hash);
      Returned(batch, skipped[..|skipped| - 1]) +
      (if found.Some? then [Entry(tx, found.value.sender, found.value.tasteScore)] else [])
  }

  function AddEntry(p: Pool, e: Entry): Pool {
    Add(p, e.tx, e.sender, e.score)
  }

  function ReAdd(p: Pool, es: seq<Entry>): Pool {
    if es == [] then p else AddEntry(ReAdd(p, es[..|es| - 1]), es[|es| - 1])
  }

  // ---------- hashes ----------

  function TxsIn(es: seq<Entry>): (txs: seq<Tx>)
    ensures |txs| == |es|
  {
    seq(|es|, i requires 0 <= i < |es| => es[i].tx)
  }

  ghost predicate DistinctTxs(txs: seq<Tx>) {
    forall i, j :: 0 <= i < j < |txs| ==> txs[i].hash != txs[j].hash
  }

  ghost function HashesOf(txs: seq<Tx>): set<Hash> {
    set tx | tx in txs :: tx.hash
  }

  lemma BatchDistinct(batch: seq<TxMeta>)
    requires NoDuplicates(batch)
    ensures DistinctTxs(TxsOf(batch)) && HashesOf(TxsOf(batch)) == HashesIn(batch)
    ensures ChainProofs.HashDetermines(TxsOf(batch))
  {
    forall i, j | 0 <= i < j < |batch|
      ensures TxsOf(batch)[i].hash != TxsOf(batch)[j].hash
    {
      assert Differ(batch, i, j);
    }
    forall m | m in batch
      ensures m.tx in TxsOf(batch)
    {
      var i :| 0 <= i < |batch| && batch[i] == m;
      assert TxsOf(batch)[i] == m.tx;
    }
  }

  lemma {:induction false} DistinctOnce(txs: seq<Tx>, tx: Tx)
    requires DistinctTxs(txs)
    ensures multiset(txs)[tx] <= 1
  {
    if txs != [] {
      assert txs == [txs[0]] + txs[1..];
      DistinctOnce(txs[1..], tx);
      if txs[0] == tx {
        assert tx !in txs[1..];
      }
    }
  }

  lemma TwiceListed(txs: seq<Tx>, i: nat, j: nat)
    requires i < j < |txs| && txs[i] == txs[j]
    ensures multiset(txs)[txs[i]] >= 2
  {
    assert txs == txs[..j] + txs[j..];
    assert txs[..j][i] == txs[i] && txs[j..][0] == txs[j];
    assert multiset(txs) == multiset(txs[..j]) + multiset(txs[j..]);
    assert txs[i] in multiset(txs[..j]) && txs[i] in multiset(txs[j..]);
  }

  /** A part of a list with distinct hashes has distinct hashes. */
  lemma PartDistinct(part: seq<Tx>, txs: seq<Tx>)
    requires DistinctTxs(txs) && multiset(part) <= multiset(txs)
    ensures DistinctTxs(part) && HashesOf(part) <= HashesOf(txs)
    ensures forall tx :: tx in part ==> tx in txs
  {
    forall tx | tx in part
      ensures tx in txs
    {
      assert tx in multiset(part);
      assert tx in multiset(txs);
    }
    forall i, j | 0 <= i < j < |part|
      ensures part[i].hash != part[j].hash
    {
      if part[i].hash == part[j].hash {
        assert part[i] in txs && part[j] in txs;
        TwiceListed(part, i, j);
        DistinctOnce(txs, part[i]);
      }
    }
  }

  // ---------- putting back ----------

  ghost predicate Fits(p: Pool, es: seq<Entry>) {
    && DistinctTxs(TxsIn(es)) && HashesOf(TxsIn(es)) !! p.known.Keys
    && p.queues.Size() + |es| <= Max(p.maxSize, 0)
  }

  /** Everything put back is accepted, and nothing else in the pool changes. */
  ghost predicate PutBack(p: Pool, es: seq<Entry>, q: Pool) {
    && PoolOk(q)
    && Bag(q.queues) == Bag(p.queues) + multiset(TxsIn(es))
    && q.queues.Size() == p.queues.Size() + |es|
    && q.known.Keys == p.known.Keys + HashesOf(TxsIn(es))
    && q.maxSize == p.maxSize
  }

  lemma {:induction false} ReAddAll(p: Pool, es: seq<Entry>)
    requires PoolOk(p) && Fits(p, es)
    ensures PutBack(p, es, ReAdd(p, es))
  {
    hide PoolOk, Bag;
    if es != [] {
      var front, e := es[..|es| - 1], es[|es| - 1];
      assert es == front + [e];
      FitsSnoc(p, front, e);
      ReAddAll(p, front);
      AddAccepts(p, front, e, ReAdd(p, front));
    } else {
      assert TxsIn(es) == [];
    }
  }

  lemma FitsSnoc(p: Pool, front: seq<Entry>, e: Entry)
    requires Fits(p, front + [e])
    ensures Fits(p, front)
    ensures TxsIn(front + [e]) == TxsIn(front) + [e.tx]
    ensures HashesOf(TxsIn(front + [e])) == HashesOf(TxsIn(front)) + {e.tx.hash}
    ensures e.tx.hash !in HashesOf(TxsIn(front)) && e.tx.hash !in p.known
  {
    var es := front + [e];
    var txs := TxsIn(front);
    assert TxsIn(es) == txs + [e.tx];
    assert TxsIn(es)[|front|] == e.tx;
    forall i, j | 0 <= i < j < |txs|
      ensures txs[i].hash != txs[j].hash
    {
      assert TxsIn(es)[i].hash != TxsIn(es)[j].hash;
    }
    forall tx | tx in txs
      ensures tx.hash != e.tx.hash
    {
      var i :| 0 <= i < |txs| && txs[i] == tx;
      assert TxsIn(es)[i].hash != TxsIn(es)[|front|].hash;
    }
    assert e.tx in TxsIn(es) && forall tx :: tx in txs ==> tx in TxsIn(es);
  }

  lemma AddAccepts(p: Pool, front: seq<Entry>, e: Entry, q: Pool)
    requires PutBack(p, front, q) && Fits(p, front + [e])
    ensures AddOutcome(q, e.tx) == Added
    ensures PutBack(p, front + [e], AddEntry(q, e))
  {
    hide Bag, PoolOk;
    FitsSnoc(p, front, e);
    AddBag(q, e.tx, e.sender, e.score);
    AddOk(q, e.tx, e.sender, e.score);
  }

  lemma MetaFound(batch: seq<TxMeta>, h: Hash)
    requires h in HashesIn(batch)
    ensures MetaOf(batch, h).Some?
    ensures MetaOf(batch, h).value in batch && MetaOf(batch, h).value.tx.hash == h
  {
    if batch[0].tx.hash != h {
      assert h in HashesIn(batch[1..]);
      MetaFound(batch[1..], h);
    }
  }

  /** The search by hash finds every skipped transaction's own entry. */
  lemma {:induction false} ReturnedAll(batch: seq<TxMeta>, skipped: seq<Tx>)
    requires HashesOf(skipped) <= HashesIn(batch)
    ensures TxsIn(Returned(batch, skipped)) == skipped
    ensures forall e :: e in Returned(batch, skipped) ==>
              exists m :: m in batch && m.tx.hash == e.tx.hash && m.sender == e.sender && m.tasteScore == e.score
  {
    if skipped != [] {
      var front, tx := skipped[..|skipped| - 1], skipped[|skipped| - 1];
      assert HashesOf(front) <= HashesOf(skipped) && tx.hash in HashesOf(skipped);
      hide HashesOf, HashesIn, MetaOf;
      ReturnedAll(batch, front);
      MetaFound(batch, tx.hash);
      assert skipped == front + [tx];
    }
  }

  /** A produced block pairs every receipt with a transaction; its transactions and the skipped ones are the batch. */
  lemma ProducedAligned(
    cfg: Config, n: Node, batch: seq<TxMeta>, number: u64, timestamp: u64, parentHash: Hash, baseFee: nat,
    commitOk: bool, writeOk: bool)
    requires NoDuplicates(batch)
    ensures var o := ExecuteAndCommitBlock(
              cfg, n, TxsOf(batch), number, timestamp, parentHash, baseFee, commitOk, writeOk).outcome;
            o.Produced? ==>
              && |o.block.receipts| == |o.block.transactions|
              && multiset(o.block.transactions) + multiset(o.skipped) == multiset(TxsOf(batch))
  {
    BatchDistinct(batch);
    var w := Open(n.states, n.root);
    if w.Some? {
      var run, b := ChainProofs.AssembleFaithful(
        cfg, w.value, TxsOf(batch), number, timestamp, parentHash, baseFee, n.origin);
      BlockProofs.BlockPartitions(cfg.machine, CtxOf(cfg, number, timestamp, parentHash, baseFee), w.value, TxsOf(batch));
    }
  }

  /**
    * A successful step loses nothing: with no Add in between, what the pool held before is
    * what it holds after plus the block's transactions.
    */
  lemma SuccessConserves(p: Pool, maxTx: int, gasLimit: u64, included: seq<Tx>, skipped: seq<Tx>)
    returns (s: Popping, q: Pool)
    requires PoolOk(p)
    requires multiset(included) + multiset(skipped) == multiset(TxsOf(PopBatch(p, maxTx, gasLimit).batch))
    ensures s == PopBatch(p, maxTx, gasLimit) && q == ReAdd(s.pool, Returned(s.batch, skipped))
    ensures PoolOk(s.pool) && Fits(s.pool, Returned(s.batch, skipped))
    ensures PoolOk(q) && Bag(p.queues) == Bag(q.queues) + multiset(included)
  {
    s := PopConserves(p, maxTx, gasLimit);
    BatchDistinct(s.batch);
    PartDistinct(skipped, TxsOf(s.batch));
    ReturnedAll(s.batch, skipped);
    var es := Returned(s.batch, skipped);
    assert |skipped| <= |s.batch| by {
      assert |multiset(included)| + |multiset(skipped)| == |multiset(TxsOf(s.batch))|;
    }
    ReAddAll(s.pool, es);
    q := ReAdd(s.pool, es);
  }

  /** A failed step puts everything back: the pool holds what it held before. */
  lemma FailureConserves(p: Pool, maxTx: int, gasLimit: u64) returns (s: Popping, q: Pool)
    requires PoolOk(p)
    ensures s == PopBatch(p, maxTx, gasLimit) && q == ReAdd(s.pool, Anonymous(TxsOf(s.batch)))
    ensures PoolOk(s.pool) && Fits(s.pool, Anonymous(TxsOf(s.batch)))
    ensures PoolOk(q) && Bag(q.queues) == Bag(p.queues)
  {
    s := PopConserves(p, maxTx, gasLimit);
    BatchDistinct(s.batch);
    var es := Anonymous(TxsOf(s.batch));
    assert TxsIn(es) == TxsOf(s.batch);
    ReAddAll(s.pool, es);
    q := ReAdd(s.pool, es);
  }

  /** But the way they were queued is lost: every popped transaction comes back in the slow lane. */
  lemma {:induction false} FailureDemotes(p: Pool, txs: seq<Tx>, i: nat)
    requires PoolOk(p) && Fits(p, Anonymous(txs)) && i < |txs|
    ensures var q := ReAdd(p, Anonymous(txs));
            txs[i].hash in q.known && q.known[txs[i].hash] == LaneSlow
    decreases |txs|
  {
    hide PoolOk, Bag;
    var front, tx := txs[..|txs| - 1], txs[|txs| - 1];
    var es := Anonymous(txs);
    assert es[..|front|] == Anonymous(front);
    assert es == Anonymous(front) + [Entry(tx, NO_SENDER, 0.0)];
    assert TxsIn(es) == txs;
    FitsSnoc(p, Anonymous(front), Entry(tx, NO_SENDER, 0.0));
    ReAddAll(p, Anonymous(front));
    AddAccepts(p, Anonymous(front), Entry(tx, NO_SENDER, 0.0), ReAdd(p, Anonymous(front)));
    if i < |front| {
      FailureDemotes(p, front, i);
      assert txs[i].hash != tx.hash;
    }
  }

  /** Queued in the slow lane with score zero and the zero sender. */
  ghost predicate Anonymized(p: Pool, tx: Tx) {
    exists m :: m in p.queues.slow && m.tx == tx && m.tasteScore == 0.0 && forall k :: 0 <= k < 20 ==> m.sender[k] == 0
  }

  lemma AddKeepsAnonymized(p: Pool, tx: Tx, e: Entry)
    requires Anonymized(p, tx)
    ensures Anonymized(AddEntry(p, e), tx)
  {
    hide Insert, PriorityOf;
    var m :| m in p.queues.slow && m.tx == tx && m.tasteScore == 0.0 && forall k :: 0 <= k < 20 ==> m.sender[k] == 0;
    InsertElements(p.queues.slow, NewMeta(p, e.tx, e.sender, e.score));
    assert m in AddEntry(p, e).queues.slow;
  }

  lemma AddAnonymizes(p: Pool, tx: Tx)
    requires AddOutcome(p, tx) == Added
    ensures Anonymized(AddEntry(p, Entry(tx, NO_SENDER, 0.0)), tx)
  {
    hide Insert, PriorityOf;
    var m := NewMeta(p, tx, NO_SENDER, 0.0);
    InsertElements(p.queues.slow, m);
    assert m in AddEntry(p, Entry(tx, NO_SENDER, 0.0)).queues.slow;
  }

  /** And so are its sender and its score. */
  lemma {:induction false} FailureAnonymizes(p: Pool, txs: seq<Tx>, i: nat)
    requires PoolOk(p) && Fits(p, Anonymous(txs)) && i < |txs|
    ensures Anonymized(ReAdd(p, Anonymous(txs)), txs[i])
    decreases |txs|
  {
    hide PoolOk, Fits, PutBack, Anonymized, AddEntry, AddOutcome;
    var front, tx := txs[..|txs| - 1], txs[|txs| - 1];
    var es, e := Anonymous(txs), Entry(tx, NO_SENDER, 0.0);
    assert es[..|front|] == Anonymous(front);
    assert es == Anonymous(front) + [e];
    FitsSnoc(p, Anonymous(front), e);
    ReAddAll(p, Anonymous(front));
    var q := ReAdd(p, Anonymous(front));
    AddAccepts(p, Anonymous(front), e, q);
    if i < |front| {
      FailureAnonymizes(p, front, i);
      AddKeepsAnonymized(q, txs[i], e);
    } else {
      AddAnonymizes(q, tx);
    }
  }

  // ---------- gas ----------

  lemma {:induction false} OfferedIsGasOf(batch: seq<TxMeta>)
    ensures BlockProofs.OfferedGas(TxsOf(batch)) == GasOf(batch)
  {
    if batch != [] {
      assert TxsOf(batch)[1..] == TxsOf(batch[1..]);
      OfferedIsGasOf(batch[1..]);
    }
  }

  /** A block uses no more than the limit its batch was popped under, nor than the fixed execution limit. */
  lemma BlockWithinPoppedLimit(m: Machine, ctx: BlockCtx, w: World, p: Pool, maxTx: int, gasLimit: u64)
    requires LaneShares.GasFits(p, gasLimit)
    requires WellBehaved(m) && WorldOk(m, w) && ctx.gasLimit == BLOCK_GAS
    requires KeyHeld(m, TxsOf(PopBatch(p, maxTx, gasLimit).batch))
    requires BlockProofs.GasFits(TxsOf(PopBatch(p, maxTx, gasLimit).batch), BLOCK_GAS)
    ensures Execute(m, ctx, w, TxsOf(PopBatch(p, maxTx, gasLimit).batch)).gas <= Min(gasLimit, BLOCK_GAS)
  {
    var batch := PopBatch(p, maxTx, gasLimit).batch;
    LaneShares.PopBounds(p, maxTx, gasLimit);
    OfferedIsGasOf(batch);
    BlockProofs.BlockGas(m, ctx, w, TxsOf(batch));
  }
}
