/** In which order transactions leave the pool, said with the fields the program compares. */
module LaneOrder {
  import opened Common
  import opened Transactions
  import opened LanePool
  import opened LanePoolProofs
  import opened LaneShares
  import opened PoolRuns

  /** x leaves before y: more priority, or as much of it and the earlier arrival. */
  ghost predicate LeavesFirst(x: TxMeta, y: TxMeta) {
    x.priority > y.priority || (x.priority == y.priority && x.receivedAt < y.receivedAt)
  }

  /** Priorities never rise along the list, and equal ones come in order of arrival. */
  ghost predicate Falling(s: seq<TxMeta>) {
    forall i, j :: 0 <= i < j < |s| ==> LeavesFirst(s[i], s[j])
  }

  /** Nothing left has more priority than something taken, nor as much with an earlier arrival. */
  ghost predicate BestTaken(taken: seq<TxMeta>, left: seq<TxMeta>) {
    forall x, y :: x in taken && y in left ==> LeavesFirst(x, y)
  }

  lemma LanesFall(p: Pool, l: Lane)
    requires PoolOk(p)
    ensures Falling(p.queues.Of(l))
  {
    var s := p.queues.Of(l);
    LaneFacts(p, l);
    forall i, j | 0 <= i < j < |s|
      ensures LeavesFirst(s[i], s[j])
    {
      assert InOrder(s, i, j);
    }
  }

  lemma FallingParts(s: seq<TxMeta>, a: nat, b: nat)
    requires Falling(s) && a <= b <= |s|
    ensures Falling(s[..a]) && Falling(s[a..b]) && BestTaken(s[..b], s[b..])
  {}

  // ---------- the shape of a pop ----------

  /** From `from`, the first k entries of a lane went into the batch. */
  ghost predicate Front(from: Popping, to: Popping, l: Lane, k: nat) {
    var q := from.pool.queues.Of(l);
    k <= |q| && to.batch == from.batch + q[..k] && to.pool.queues == from.pool.queues.With(l, q[k..])
  }

  lemma DrainShape(s: Popping, l: Lane, maxTx: int, gasLimit: u64) returns (k: nat)
    ensures Front(s, Drain(s, l, maxTx, gasLimit), l, k)
  {
    k := Fit(s.pool.queues.Of(l), maxTx - |s.batch|, gasLimit, 0);
  }

  lemma TopUpShape(s: Popping, l: Lane, maxTx: int) returns (k: nat)
    ensures Front(s, TopUp(s, l, maxTx), l, k)
  {
    hide Drain;
    k := 0;
    if s.remaining > 0 && |s.batch| < maxTx {
      k := DrainShape(s, l, maxTx, s.remaining);
    } else {
      assert s.pool.queues.Of(l)[0..] == s.pool.queues.Of(l);
    }
  }

  lemma ThreeFronts(s0: Popping, s1: Popping, s2: Popping, s3: Popping, a: nat, b: nat, c: nat)
    requires Front(s0, s1, LaneFast, a) && Front(s1, s2, LaneStandard, b) && Front(s2, s3, LaneSlow, c)
    ensures var q := s0.pool.queues;
            && a <= |q.fast| && b <= |q.std| && c <= |q.slow|
            && s3.batch == s0.batch + q.fast[..a] + q.std[..b] + q.slow[..c]
            && s3.pool.queues == Queues(q.fast[a..], q.std[b..], q.slow[c..])
  {}

  /** Two rounds over the three lanes. */
  lemma TwoRounds(q: Queues, first: Popping, last: Popping, a: nat, b: nat, c: nat, a2: nat, b2: nat, c2: nat)
    returns (k: Cuts)
    requires a <= |q.fast| && b <= |q.std| && c <= |q.slow|
    requires first.batch == q.fast[..a] + q.std[..b] + q.slow[..c]
    requires first.pool.queues == Queues(q.fast[a..], q.std[b..], q.slow[c..])
    requires a2 <= |q.fast[a..]| && b2 <= |q.std[b..]| && c2 <= |q.slow[c..]|
    requires last.batch == first.batch + q.fast[a..][..a2] + q.std[b..][..b2] + q.slow[c..][..c2]
    requires last.pool.queues == Queues(q.fast[a..][a2..], q.std[b..][b2..], q.slow[c..][c2..])
    ensures k == Cuts(a, b, c, a + a2, b + b2, c + c2) && Within(q, k)
    ensures last.batch == BatchOf(q, k) && last.pool.queues == Queues(q.fast[k.a2..], q.std[k.b2..], q.slow[k.c2..])
  {
    k := Cuts(a, b, c, a + a2, b + b2, c + c2);
    SliceOfSlice(q.fast, a, k.a2);
    SliceOfSlice(q.std, b, k.b2);
    SliceOfSlice(q.slow, c, k.c2);
  }

  /** Whatever gas the queued transactions offer, a batch is two stretches from the front of each lane. */
  lemma PopShape(p: Pool, maxTx: int, gasLimit: u64) returns (k: Cuts)
    ensures Within(p.queues, k)
    ensures var q, s := p.queues, PopBatch(p, maxTx, gasLimit);
            && s.batch == BatchOf(q, k)
            && s.pool.queues == Queues(q.fast[k.a2..], q.std[k.b2..], q.slow[k.c2..])
  {
    hide Drain, TopUp, Share, BatchOf, Within;
    var wide, narrow := Share(gasLimit, 4000), Share(gasLimit, 2000);
    var s0 := Popping(p, [], gasLimit);
    var a := DrainShape(s0, LaneFast, maxTx, wide);
    var s1 := Drain(s0, LaneFast, maxTx, wide);
    var b := DrainShape(s1, LaneStandard, maxTx, wide);
    var s2 := Drain(s1, LaneStandard, maxTx, wide);
    var c := DrainShape(s2, LaneSlow, maxTx, narrow);
    var s3 := Drain(s2, LaneSlow, maxTx, narrow);
    var a2 := TopUpShape(s3, LaneFast, maxTx);
    var s4 := TopUp(s3, LaneFast, maxTx);
    var b2 := TopUpShape(s4, LaneStandard, maxTx);
    var s5 := TopUp(s4, LaneStandard, maxTx);
    var c2 := TopUpShape(s5, LaneSlow, maxTx);
    var s6 := TopUp(s5, LaneSlow, maxTx);
    hide Front;
    ThreeFronts(s0, s1, s2, s3, a, b, c);
    ThreeFronts(s3, s4, s5, s6, a2, b2, c2);
    k := TwoRounds(p.queues, s3, s6, a, b, c, a2, b2, c2);
  }

  /**
    * A pop takes the best first: in each of the batch's six stretches priorities never rise
    * and ties go by arrival, and what a lane keeps ranks behind everything it gave.
    */
  lemma BestLeaveFirst(p: Pool, maxTx: int, gasLimit: u64) returns (k: Cuts)
    requires PoolOk(p)
    ensures Within(p.queues, k)
    ensures var q, s := p.queues, PopBatch(p, maxTx, gasLimit);
            && s.batch == BatchOf(q, k)
            && s.pool.queues == Queues(q.fast[k.a2..], q.std[k.b2..], q.slow[k.c2..])
            && Falling(q.fast[..k.a]) && Falling(q.std[..k.b]) && Falling(q.slow[..k.c])
            && Falling(q.fast[k.a..k.a2]) && Falling(q.std[k.b..k.b2]) && Falling(q.slow[k.c..k.c2])
            && BestTaken(q.fast[..k.a2], q.fast[k.a2..])
            && BestTaken(q.std[..k.b2], q.std[k.b2..])
            && BestTaken(q.slow[..k.c2], q.slow[k.c2..])
  {
    hide PoolOk, PopBatch, Falling, BestTaken;
    k := PopShape(p, maxTx, gasLimit);
    LanesFall(p, LaneFast);
    LanesFall(p, LaneStandard);
    LanesFall(p, LaneSlow);
    FallingParts(p.queues.fast, k.a, k.a2);
    FallingParts(p.queues.std, k.b, k.b2);
    FallingParts(p.queues.slow, k.c, k.c2);
  }

  /** Over every run of the pool's operations. */
  lemma ReachableBestFirst(weight: real, maxSize: int, clock: nat, ops: seq<Op>, maxTx: int, gasLimit: u64)
    returns (k: Cuts)
    ensures var p := RunOps(Opened(weight, maxSize, clock), ops).pool;
            var q, s := p.queues, PopBatch(p, maxTx, gasLimit);
            && Within(q, k) && s.batch == BatchOf(q, k)
            && (forall l :: Falling(q.Of(l)) && BestTaken(q.Of(l)[..CutOf(k, l)], s.pool.queues.Of(l)))
            && (forall l, m :: m in q.Of(l) ==> m.priority == PriorityOf(p.weight, m.tx.gasPrice, m.tasteScore))
  {
    hide PoolOk, PopBatch, RunOps, Falling, BestTaken, PriorityOf;
    ReachablePool(weight, maxSize, clock, ops);
    var p := RunOps(Opened(weight, maxSize, clock), ops).pool;
    k := BestLeaveFirst(p, maxTx, gasLimit);
    forall l
      ensures Falling(p.queues.Of(l))
      ensures BestTaken(p.queues.Of(l)[..CutOf(k, l)], PopBatch(p, maxTx, gasLimit).pool.queues.Of(l))
    {
      LanesFall(p, l);
    }
    forall l, m | m in p.queues.Of(l)
      ensures m.priority == PriorityOf(p.weight, m.tx.gasPrice, m.tasteScore)
    {
      LaneFacts(p, l);
    }
  }

  /** Where a lane's second stretch ends. */
  function CutOf(k: Cuts, l: Lane): nat {
    match l
    case LaneFast => k.a2
    case LaneStandard => k.b2
    case LaneSlow => k.c2
  }

  /**
    * Of two entries of a lane with the same score, the one that pays more, up to 100 gwei,
    * is ahead in the lane, so no pop takes the other and leaves it.
    */
  lemma HigherPayerFirst(p: Pool, l: Lane, i: nat, j: nat, maxTx: int, gasLimit: u64)
    requires PoolOk(p) && 0.0 <= p.weight < 1.0
    requires i < |p.queues.Of(l)| && j < |p.queues.Of(l)|
    requires var x, y := p.queues.Of(l)[i], p.queues.Of(l)[j];
             x.tasteScore == y.tasteScore && 0 < y.tx.gasPrice < x.tx.gasPrice <= MAX_GWEI
    ensures i < j
    ensures var left := PopBatch(p, maxTx, gasLimit).pool.queues.Of(l);
            p.queues.Of(l)[i] in left ==> p.queues.Of(l)[j] in left
  {
    hide PopBatch, PriorityOf;
    var q := p.queues.Of(l);
    LaneFacts(p, l);
    LanesFall(p, l);
    assert EntryOk(p, l, q[i]) && EntryOk(p, l, q[j]);
    PriorityGrowsWithPrice(p.weight, q[j].tx.gasPrice, q[i].tx.gasPrice, q[i].tasteScore);
    assert j < i ==> LeavesFirst(q[j], q[i]);
    var k := PopShape(p, maxTx, gasLimit);
    var cut := CutOf(k, l);
    if q[i] in q[cut..] {
      var n :| cut <= n < |q| && q[n] == q[i];
      assert Differ(q, i, n) && Differ(q, n, i);
      assert q[cut..][j - cut] == q[j];
    }
  }

  // ---------- which lane, and when Add says no ----------

  /** Each lane holds the scores of its interval. */
  lemma LaneScores(p: Pool, m: TxMeta)
    requires PoolOk(p)
    ensures m in p.queues.fast ==> m.tasteScore >= 0.65
    ensures m in p.queues.std ==> 0.15 <= m.tasteScore < 0.65
    ensures m in p.queues.slow ==> m.tasteScore < 0.15
  {
    LaneFacts(p, LaneFast);
    LaneFacts(p, LaneStandard);
    LaneFacts(p, LaneSlow);
  }

  ghost predicate Queued(p: Pool, h: Hash) {
    exists l: Lane, m :: m in p.queues.Of(l) && m.tx.hash == h
  }

  lemma QueuedIsKnown(p: Pool, h: Hash)
    requires PoolOk(p)
    ensures Queued(p, h) <==> h in p.known
  {
    if h in p.known {
      assert Listed(p, h);
    }
    forall l, m | m in p.queues.Of(l) && m.tx.hash == h
      ensures h in p.known
    {
      LaneFacts(p, l);
    }
  }

  /**
    * Add refuses a transaction exactly if its hash is queued, or else if as many are queued as
    * may be; otherwise it is queued as it came, in the lane of its score, with an arrival
    * later than any other's.
    */
  lemma AddAnswers(p: Pool, tx: Tx, sender: Address, score: real)
    requires PoolOk(p)
    ensures AddOutcome(p, tx) == (if Queued(p, tx.hash) then AlreadyKnown
                                  else if p.queues.Size() >= p.maxSize then PoolFull
                                  else Added)
    ensures AddOutcome(p, tx) != Added ==> Add(p, tx, sender, score) == p
    ensures AddOutcome(p, tx) == Added ==>
              var z := Add(p, tx, sender, score);
              var l := if score >= 0.65 then LaneFast else if score >= 0.15 then LaneStandard else LaneSlow;
              exists m :: m in z.queues.Of(l) && m.tx == tx && m.sender == sender && m.tasteScore == score
                && m.priority == PriorityOf(p.weight, tx.gasPrice, score)
                && forall l', y :: y in p.queues.Of(l') ==> y.receivedAt < m.receivedAt
  {
    QueuedIsKnown(p, tx.hash);
    if AddOutcome(p, tx) == Added {
      var m := NewMeta(p, tx, sender, score);
      InsertElements(p.queues.Of(ClassifyLane(score)), m);
      forall l', y | y in p.queues.Of(l')
        ensures y.receivedAt < m.receivedAt
      {
        LaneFacts(p, l');
      }
      assert m in Add(p, tx, sender, score).queues.Of(ClassifyLane(score));
    }
  }
}
