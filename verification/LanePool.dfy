/**
  * The laned pool as a value: three ranked lanes and the hash index, and what each pool
  * operation does to them.  Gas arithmetic wraps where the program's does.
  */
module LanePool {
  import opened Common
  import opened Transactions
  import opened TxHeap

  datatype Lane = LaneFast | LaneStandard | LaneSlow

  function ClassifyLane(tasteScore: real): Lane {
    if tasteScore >= 0.65 then LaneFast
    else if tasteScore >= 0.15 then LaneStandard
    else LaneSlow
  }

  datatype Queues = Queues(fast: seq<TxMeta>, std: seq<TxMeta>, slow: seq<TxMeta>) {
    function Of(l: Lane): seq<TxMeta> {
      match l
      case LaneFast => fast
      case LaneStandard => std
      case LaneSlow => slow
    }

    function With(l: Lane, s: seq<TxMeta>): Queues {
      match l
      case LaneFast => this.(fast := s)
      case LaneStandard => this.(std := s)
      case LaneSlow => this.(slow := s)
    }

    function Size(): nat {
      |fast| + |std| + |slow|
    }
  }

  /** `clock` stands for time: every arrival so far is earlier. */
  datatype Pool = Pool(queues: Queues, known: map<Hash, Lane>, maxSize: int, weight: real, clock: nat)

  // ---------- ranked lanes ----------

  ghost predicate InOrder(s: seq<TxMeta>, i: int, j: int) {
    0 <= i < j < |s| ==> Before(s[i], s[j])
  }

  /** Strictly in the order the heap pops: this order is unique for a given set of entries. */
  ghost predicate Ranked(s: seq<TxMeta>) {
    forall i: int, j: int {:trigger InOrder(s, i, j)} :: InOrder(s, i, j)
  }

  function Insert(s: seq<TxMeta>, x: TxMeta): seq<TxMeta> {
    if s == [] then [x]
    else if Before(x, s[0]) then [x] + s
    else [s[0]] + Insert(s[1..], x)
  }

  function HashesIn(s: seq<TxMeta>): set<Hash> {
    set m | m in s :: m.tx.hash
  }

  ghost predicate Differ(s: seq<TxMeta>, i: int, j: int) {
    0 <= i < j < |s| ==> s[i].tx.hash != s[j].tx.hash
  }

  ghost predicate NoDuplicates(s: seq<TxMeta>) {
    forall i: int, j: int {:trigger Differ(s, i, j)} :: Differ(s, i, j)
  }

  /** An entry arrived in the past, ranks by price and score, and is indexed under the lane its score asks for, which is l. */
  ghost predicate EntryOk(p: Pool, l: Lane, m: TxMeta) {
    && m.receivedAt < p.clock
    && m.priority == PriorityOf(p.weight, m.tx.gasPrice, m.tasteScore)
    && ClassifyLane(m.tasteScore) == l
    && m.tx.hash in p.known && p.known[m.tx.hash] == l
  }

  ghost predicate LaneOk(p: Pool, l: Lane) {
    var s := p.queues.Of(l);
    && Ranked(s)
    && NoDuplicates(s)
    && forall m {:trigger EntryOk(p, l, m)} :: m in s ==> EntryOk(p, l, m)
  }

  /** A hash that is indexed is queued in the lane it is indexed under. */
  ghost predicate Listed(p: Pool, h: Hash) {
    h in p.known ==> h in HashesIn(p.queues.Of(p.known[h]))
  }

  /** Index agreement: `known` holds exactly the queued hashes, each under the one lane that queues it. */
  ghost predicate PoolOk(p: Pool) {
    && (forall l {:trigger LaneOk(p, l)} :: LaneOk(p, l))
    && (forall h {:trigger Listed(p, h)} :: Listed(p, h))
    && p.queues.Size() <= Max(p.maxSize, 0)
  }

  // ---------- operations ----------

  datatype AddResult = Added | AlreadyKnown | PoolFull

  function NewMeta(p: Pool, tx: Tx, sender: Address, score: real): TxMeta {
    TxMeta(tx, score, PriorityOf(p.weight, tx.gasPrice, score), p.clock, sender)
  }

  function AddOutcome(p: Pool, tx: Tx): AddResult {
    if tx.hash in p.known then AlreadyKnown
    else if p.queues.Size() >= p.maxSize then PoolFull
    else Added
  }

  function Add(p: Pool, tx: Tx, sender: Address, score: real): Pool {
    if AddOutcome(p, tx) != Added then p
    else
      var l := ClassifyLane(score);
      p.(queues := p.queues.With(l, Insert(p.queues.Of(l), NewMeta(p, tx, sender, score))),
         known := p.known[tx.hash := l],
         clock := p.clock + 1)
  }

  /** Takes the first k entries of a lane out of the pool and out of the index. */
  function Take(p: Pool, l: Lane, k: nat): Pool
    requires k <= |p.queues.Of(l)|
  {
    var s := p.queues.Of(l);
    p.(queues := p.queues.With(l, s[k..]), known := p.known - HashesIn(s[..k]))
  }

  /** How many entries from the front fit, by count and by (wrapping) gas. */
  function Fit(s: seq<TxMeta>, maxTx: int, gasLimit: u64, used: u64): (k: nat)
    ensures k <= |s| && (k > 0 ==> k <= maxTx)
  {
    if s == [] || maxTx <= 0 then 0
    else
      var g := Wrap64(used + s[0].tx.gas);
      if g > gasLimit then 0 else 1 + Fit(s[1..], maxTx - 1, gasLimit, g)
  }

  function GasOf(s: seq<TxMeta>): nat {
    if s == [] then 0 else s[0].tx.gas + GasOf(s[1..])
  }

  /** A pop in progress: the pool left, the batch so far, the gas still to give out. */
  datatype Popping = Popping(pool: Pool, batch: seq<TxMeta>, remaining: u64)

  function Drain(s: Popping, l: Lane, maxTx: int, gasLimit: u64): Popping {
    var q := s.pool.queues.Of(l);
    var k := Fit(q, maxTx - |s.batch|, gasLimit, 0);
    Popping(Take(s.pool, l, k), s.batch + q[..k], Wrap64(s.remaining - GasOf(q[..k])))
  }

  function Share(gasLimit: u64, bps: nat): u64 {
    Wrap64(gasLimit * bps) / 10000
  }

  /** Each lane up to its guaranteed share. */
  function Guaranteed(p: Pool, maxTx: int, gasLimit: u64): Popping {
    var fast := Drain(Popping(p, [], gasLimit), LaneFast, maxTx, Share(gasLimit, 4000));
    var std := Drain(fast, LaneStandard, maxTx, Share(gasLimit, 4000));
    Drain(std, LaneSlow, maxTx, Share(gasLimit, 2000))
  }

  /** What is left goes to a lane if there is gas and room. */
  function TopUp(s: Popping, l: Lane, maxTx: int): Popping {
    if s.remaining > 0 && |s.batch| < maxTx then Drain(s, l, maxTx, s.remaining) else s
  }

  function PopBatch(p: Pool, maxTx: int, gasLimit: u64): Popping {
    TopUp(TopUp(TopUp(Guaranteed(p, maxTx, gasLimit), LaneFast, maxTx), LaneStandard, maxTx), LaneSlow, maxTx)
  }

  function Without(s: seq<TxMeta>, h: Hash): seq<TxMeta> {
    if s == [] then []
    else if s[0].tx.hash == h then s[1..]
    else [s[0]] + Without(s[1..], h)
  }

  function Remove(p: Pool, h: Hash): Pool {
    if h !in p.known then p
    else
      var l := p.known[h];
      p.(queues := p.queues.With(l, Without(p.queues.Of(l), h)), known := p.known - {h})
  }

  function Reset(p: Pool): Pool {
    p.(queues := Queues([], [], []), known := map[])
  }

  function Empty(weight: real, maxSize: int, clock: nat): Pool {
    Pool(Queues([], [], []), map[], maxSize, weight, clock)
  }
}
