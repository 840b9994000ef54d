/** Every pool that adding, popping, removing and resetting can reach from an empty one. */
module PoolRuns {
  import opened Common
  import opened Transactions
  import opened LanePool
  import opened LanePoolProofs
  import opened LaneConservation

  datatype Op =
    | AddOp(tx: Tx, sender: Address, score: real)
    | PopOp(maxTx: int, gasLimit: u64)
    | RemoveOp(hash: Hash)
    | ResetOp

  /** A pool with an account of what went in and came out, with multiplicity. */
  datatype Account = Account(pool: Pool, added: multiset<Tx>, popped: multiset<Tx>, dropped: multiset<Tx>)

  /** What Without takes out of a lane. */
  function Matching(s: seq<TxMeta>, h: Hash): multiset<Tx> {
    if s == [] then multiset{}
    else if s[0].tx.hash == h then multiset{s[0].tx}
    else Matching(s[1..], h)
  }

  function Removed(p: Pool, h: Hash): multiset<Tx> {
    if h in p.known then Matching(p.queues.Of(p.known[h]), h) else multiset{}
  }

  ghost function Apply(a: Account, op: Op): Account {
    var p := a.pool;
    match op
    case AddOp(tx, sender, score) =>
      a.(pool := Add(p, tx, sender, score), added := if AddOutcome(p, tx) == Added then a.added + multiset{tx} else a.added)
    case PopOp(maxTx, gasLimit) =>
      var s := PopBatch(p, maxTx, gasLimit);
      a.(pool := s.pool, popped := a.popped + multiset(TxsOf(s.batch)))
    case RemoveOp(h) =>
      a.(pool := Remove(p, h), dropped := a.dropped + Removed(p, h))
    case ResetOp =>
      a.(pool := Reset(p), dropped := a.dropped + Bag(p.queues))
  }

  ghost function RunOps(a: Account, ops: seq<Op>): Account {
    if ops == [] then a else Apply(RunOps(a, ops[..|ops| - 1]), ops[|ops| - 1])
  }

  function Opened(weight: real, maxSize: int, clock: nat): Account {
    Account(Empty(weight, maxSize, clock), multiset{}, multiset{}, multiset{})
  }

  /** Index agreement, and everything accepted is queued, popped or dropped, once. */
  ghost predicate AccountOk(a: Account) {
    PoolOk(a.pool) && a.added == Bag(a.pool.queues) + a.popped + a.dropped
  }

  lemma {:induction false} WithoutBag(s: seq<TxMeta>, h: Hash)
    ensures multiset(TxsOf(s)) == multiset(TxsOf(Without(s, h))) + Matching(s, h)
  {
    if s != [] {
      TxsOfCons(s[0], s[1..]);
      assert s == [s[0]] + s[1..];
      if s[0].tx.hash != h {
        WithoutBag(s[1..], h);
        TxsOfCons(s[0], Without(s[1..], h));
      }
    }
  }

  lemma TxsOfCons(x: TxMeta, s: seq<TxMeta>)
    ensures multiset(TxsOf([x] + s)) == multiset{x.tx} + multiset(TxsOf(s))
  {
    assert TxsOf([x] + s) == [x.tx] + TxsOf(s);
  }

  /** Exactly one transaction, of that hash, if the pool knows it. */
  lemma RemovedIs(p: Pool, h: Hash)
    requires PoolOk(p)
    ensures |Removed(p, h)| == (if h in p.known then 1 else 0)
    ensures forall tx :: tx in Removed(p, h) ==> tx.hash == h
  {
    if h in p.known {
      assert Listed(p, h);
      MatchingIs(p.queues.Of(p.known[h]), h);
    }
  }

  lemma {:induction false} MatchingIs(s: seq<TxMeta>, h: Hash)
    ensures |Matching(s, h)| == (if h in HashesIn(s) then 1 else 0)
    ensures forall tx :: tx in Matching(s, h) ==> tx.hash == h
  {
    if s != [] && s[0].tx.hash != h {
      MatchingIs(s[1..], h);
      assert s == [s[0]] + s[1..];
    }
  }

  lemma RemoveConserves(p: Pool, h: Hash)
    ensures Bag(p.queues) == Bag(Remove(p, h).queues) + Removed(p, h)
  {
    if h in p.known {
      var l := p.known[h];
      WithoutBag(p.queues.Of(l), h);
      WithBag(p.queues, l, Without(p.queues.Of(l), h));
      Cancel(
        Bag(p.queues), Bag(Remove(p, h).queues), multiset(TxsOf(Without(p.queues.Of(l), h))), Removed(p, h));
    }
  }

  lemma ApplyOk(a: Account, op: Op)
    requires AccountOk(a)
    ensures AccountOk(Apply(a, op))
    ensures op.AddOp? || op.PopOp? ==> Apply(a, op).dropped == a.dropped
  {
    hide PoolOk, Bag, PopBatch, Add, Remove, Removed;
    var p := a.pool;
    match op
    case AddOp(tx, sender, score) =>
      AddOk(p, tx, sender, score);
      AddBag(p, tx, sender, score);
    case PopOp(maxTx, gasLimit) => var s := PopConserves(p, maxTx, gasLimit);
    case RemoveOp(h) =>
      RemoveOk(p, h);
      RemoveConserves(p, h);
    case ResetOp =>
      ResetOk(p);
      EmptyBag();
  }

  lemma EmptyBag()
    ensures Bag(Queues([], [], [])) == multiset{}
  {}

  /** Whatever the operations, from a pool in agreement with its index. */
  lemma {:induction false} RunKeepsAccount(a: Account, ops: seq<Op>)
    requires AccountOk(a)
    ensures AccountOk(RunOps(a, ops))
    ensures (forall op :: op in ops ==> op.AddOp? || op.PopOp?) ==> RunOps(a, ops).dropped == a.dropped
  {
    hide AccountOk, Apply;
    if ops != [] {
      var front := ops[..|ops| - 1];
      RunKeepsAccount(a, front);
      ApplyOk(RunOps(a, front), ops[|ops| - 1]);
    }
  }

  /**
    * In every reachable pool the index holds exactly the queued hashes, each under its own
    * lane, and each lane is ranked; every transaction accepted is queued, popped or dropped,
    * once.  Without Remove and Reset, everything accepted is queued or has been popped.
    */
  lemma ReachablePool(weight: real, maxSize: int, clock: nat, ops: seq<Op>)
    ensures var z := RunOps(Opened(weight, maxSize, clock), ops);
            && PoolOk(z.pool) && z.added == Bag(z.pool.queues) + z.popped + z.dropped
            && ((forall op :: op in ops ==> op.AddOp? || op.PopOp?) ==> z.added == Bag(z.pool.queues) + z.popped)
  {
    hide RunOps, Bag, PoolOk;
    EmptyOk(weight, maxSize, clock);
    EmptyBag();
    RunKeepsAccount(Opened(weight, maxSize, clock), ops);
  }
}
