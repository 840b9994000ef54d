/** No pool operation loses or duplicates a transaction; a pop keeps the index in agreement. */
module LaneConservation {
  import opened Common
  import opened Transactions
  import opened LanePool
  import opened LanePoolProofs
  import opened TxHeap

  function TxsOf(s: seq<TxMeta>): seq<Tx> {
    seq(|s|, i requires 0 <= i < |s| => s[i].tx)
  }

  /** Everything queued, with multiplicity. */
  ghost function Bag(q: Queues): multiset<Tx> {
    multiset(TxsOf(q.fast)) + multiset(TxsOf(q.std)) + multiset(TxsOf(q.slow))
  }

  lemma TxsOfAppend(s: seq<TxMeta>, t: seq<TxMeta>)
    ensures TxsOf(s + t) == TxsOf(s) + TxsOf(t)
  {}

  lemma {:induction false} InsertBag(s: seq<TxMeta>, x: TxMeta)
    ensures multiset(TxsOf(Insert(s, x))) == multiset(TxsOf(s)) + multiset{x.tx}
  {
    if s == [] {
      assert TxsOf(Insert(s, x)) == [x.tx];
    } else if Before(x, s[0]) {
      TxsOfAppend([x], s);
      assert TxsOf([x]) == [x.tx];
    } else {
      InsertBag(s[1..], x);
      TxsOfAppend([s[0]], Insert(s[1..], x));
      TxsOfAppend([s[0]], s[1..]);
      assert s == [s[0]] + s[1..];
    }
  }

  /** Replacing one lane changes the bag by that lane alone. */
  lemma WithBag(q: Queues, l: Lane, s: seq<TxMeta>)
    ensures Bag(q.With(l, s)) + multiset(TxsOf(q.Of(l))) == Bag(q) + multiset(TxsOf(s))
    ensures q.With(l, s).Size() + |q.Of(l)| == q.Size() + |s|
  {}

  lemma Cancel(a: multiset<Tx>, b: multiset<Tx>, common: multiset<Tx>, more: multiset<Tx>)
    requires a + common == b + (common + more)
    ensures a == b + more
  {
    forall tx
      ensures a[tx] == (b + more)[tx]
    {
      assert (a + common)[tx] == (b + (common + more))[tx];
    }
    assert a == b + more;
  }

  lemma AddBag(p: Pool, tx: Tx, sender: Address, score: real)
    ensures Bag(Add(p, tx, sender, score).queues) ==
            Bag(p.queues) + (if AddOutcome(p, tx) == Added then multiset{tx} else multiset{})
    ensures Add(p, tx, sender, score).queues.Size() ==
            p.queues.Size() + (if AddOutcome(p, tx) == Added then 1 else 0)
  {
    hide Bag, Insert, PriorityOf;
    if AddOutcome(p, tx) == Added {
      var l, x := ClassifyLane(score), NewMeta(p, tx, sender, score);
      var lane := p.queues.Of(l);
      InsertBag(lane, x);
      InsertElements(lane, x);
      WithBag(p.queues, l, Insert(lane, x));
      Cancel(Bag(p.queues.With(l, Insert(lane, x))), Bag(p.queues), multiset(TxsOf(lane)), multiset{tx});
    } else {
      assert Bag(p.queues) + multiset{} == Bag(p.queues);
    }
  }

  // ---------- popping ----------

  /** The batch so far has distinct hashes, none of them still indexed. */
  ghost predicate BatchApart(s: Popping) {
    NoDuplicates(s.batch) && HashesIn(s.batch) !! s.pool.known.Keys
  }

  /** Pool and batch together hold the same transactions before and after. */
  ghost predicate SameBag(s: Popping, t: Popping) {
    && Bag(s.pool.queues) + multiset(TxsOf(s.batch)) == Bag(t.pool.queues) + multiset(TxsOf(t.batch))
    && s.pool.queues.Size() + |s.batch| == t.pool.queues.Size() + |t.batch|
  }

  /** Index and batch together hold the same hashes before and after. */
  ghost predicate SameHashes(s: Popping, t: Popping) {
    && s.pool.known.Keys + HashesIn(s.batch) == t.pool.known.Keys + HashesIn(t.batch)
    && s.pool.(queues := t.pool.queues, known := t.pool.known) == t.pool
  }

  /** Where moving the first k entries of a lane into the batch leads. */
  ghost function TakenTo(s: Popping, l: Lane, k: nat, remaining: u64): Popping
    requires k <= |s.pool.queues.Of(l)|
  {
    Popping(Take(s.pool, l, k), s.batch + s.pool.queues.Of(l)[..k], remaining)
  }

  lemma TakeBag(s: Popping, l: Lane, k: nat, remaining: u64)
    requires k <= |s.pool.queues.Of(l)|
    ensures SameBag(s, TakenTo(s, l, k, remaining))
  {
    var q := s.pool.queues.Of(l);
    assert q == q[..k] + q[k..];
    TxsOfAppend(q[..k], q[k..]);
    TxsOfAppend(s.batch, q[..k]);
  }

  lemma TakeHashes(s: Popping, l: Lane, k: nat, remaining: u64)
    requires k <= |s.pool.queues.Of(l)| && BatchApart(s)
    requires NoDuplicates(s.pool.queues.Of(l)) && HashesIn(s.pool.queues.Of(l)) <= s.pool.known.Keys
    ensures BatchApart(TakenTo(s, l, k, remaining)) && SameHashes(s, TakenTo(s, l, k, remaining))
  {
    var q := s.pool.queues.Of(l);
    InPrefixOrRest(q, k);
    DistinctTail(q, k);
    HashesAppend(s.batch, q[..k]);
    DistinctAppend(s.batch, q[..k]);
    assert Take(s.pool, l, k).known.Keys == s.pool.known.Keys - HashesIn(q[..k]);
  }

  lemma HashesAppend(s: seq<TxMeta>, t: seq<TxMeta>)
    ensures HashesIn(s + t) == HashesIn(s) + HashesIn(t)
  {}

  lemma DistinctAppend(s: seq<TxMeta>, t: seq<TxMeta>)
    requires NoDuplicates(s) && NoDuplicates(t) && HashesIn(s) !! HashesIn(t)
    ensures NoDuplicates(s + t)
  {
    forall i: int, j: int
      ensures Differ(s + t, i, j)
    {
      assert Differ(s, i, j) && Differ(t, i - |s|, j - |s|);
      if 0 <= i < |s| <= j < |s + t| {
        assert s[i].tx.hash in HashesIn(s) && t[j - |s|].tx.hash in HashesIn(t);
      }
    }
  }

  /** Everything a pop keeps, from one state of it to the next. */
  ghost predicate Keeps(s: Popping, t: Popping) {
    PoolOk(t.pool) && BatchApart(t) && SameBag(s, t) && SameHashes(s, t)
  }

  lemma TakenKeeps(s: Popping, l: Lane, k: nat, remaining: u64)
    requires PoolOk(s.pool) && BatchApart(s) && k <= |s.pool.queues.Of(l)|
    ensures Keeps(s, TakenTo(s, l, k, remaining))
  {
    hide PoolOk, BatchApart, SameBag, SameHashes, Take, NoDuplicates;
    TakeOk(s.pool, l, k);
    TakeBag(s, l, k, remaining);
    LaneFacts(s.pool, l);
    TakeHashes(s, l, k, remaining);
  }

  lemma DrainConserves(s: Popping, l: Lane, maxTx: int, gasLimit: u64) returns (t: Popping)
    requires PoolOk(s.pool) && BatchApart(s)
    ensures t == Drain(s, l, maxTx, gasLimit)
    ensures Keeps(s, t)
  {
    hide PoolOk, BatchApart, Keeps, Take, Fit, GasOf;
    var q := s.pool.queues.Of(l);
    var k := Fit(q, maxTx - |s.batch|, gasLimit, 0);
    var remaining := Wrap64(s.remaining - GasOf(q[..k]));
    t := TakenTo(s, l, k, remaining);
    TakenKeeps(s, l, k, remaining);
  }

  lemma TopUpConserves(s: Popping, l: Lane, maxTx: int) returns (t: Popping)
    requires PoolOk(s.pool) && BatchApart(s)
    ensures t == TopUp(s, l, maxTx)
    ensures Keeps(s, t)
  {
    if s.remaining > 0 && |s.batch| < maxTx {
      t := DrainConserves(s, l, maxTx, s.remaining);
    } else {
      t := s;
    }
  }

  /**
    * A pop splits the pool: what it returns and what it leaves are what was there, with
    * distinct hashes, and the index loses exactly the hashes popped.
    */
  lemma PopConserves(p: Pool, maxTx: int, gasLimit: u64) returns (s: Popping)
    requires PoolOk(p)
    ensures s == PopBatch(p, maxTx, gasLimit)
    ensures PoolOk(s.pool) && NoDuplicates(s.batch)
    ensures Bag(p.queues) == Bag(s.pool.queues) + multiset(TxsOf(s.batch))
    ensures p.queues.Size() == s.pool.queues.Size() + |s.batch|
    ensures HashesIn(s.batch) <= p.known.Keys && s.pool.known.Keys == p.known.Keys - HashesIn(s.batch)
    ensures p.(queues := s.pool.queues, known := s.pool.known) == s.pool
  {
    hide PoolOk, Guaranteed, TopUp, Bag, NoDuplicates;
    s := GuaranteedConserves(p, maxTx, gasLimit);
    s := TopUpConserves(s, LaneFast, maxTx);
    s := TopUpConserves(s, LaneStandard, maxTx);
    s := TopUpConserves(s, LaneSlow, maxTx);
  }

  lemma GuaranteedConserves(p: Pool, maxTx: int, gasLimit: u64) returns (s: Popping)
    requires PoolOk(p)
    ensures s == Guaranteed(p, maxTx, gasLimit)
    ensures PoolOk(s.pool) && BatchApart(s)
    ensures SameBag(Popping(p, [], gasLimit), s) && SameHashes(Popping(p, [], gasLimit), s)
  {
    s := Popping(p, [], gasLimit);
    s := DrainConserves(s, LaneFast, maxTx, Share(gasLimit, 4000));
    s := DrainConserves(s, LaneStandard, maxTx, Share(gasLimit, 4000));
    s := DrainConserves(s, LaneSlow, maxTx, Share(gasLimit, 2000));
  }

  // ---------- removal ----------

  /** Removing a hash takes out exactly its entry, and keeps the index in agreement. */
  lemma RemoveOk(p: Pool, h: Hash)
    requires PoolOk(p)
    ensures PoolOk(Remove(p, h))
    ensures Remove(p, h).known.Keys == p.known.Keys - {h}
    ensures h in p.known ==>
              exists tx: Tx :: tx.hash == h && Bag(p.queues) == Bag(Remove(p, h).queues) + multiset{tx}
  {
    if h in p.known {
      var l, p' := p.known[h], Remove(p, h);
      var s := p.queues.Of(l);
      LaneFacts(p, l);
      assert Listed(p, h);
      var i :| 0 <= i < |s| && s[i].tx.hash == h;
      WithoutIs(s, h, i);
      assert s == s[..i] + [s[i]] + s[i + 1..];
      forall l'
        ensures LaneOk(p', l')
      {
        RemoveLaneOk(p, h, i, l');
      }
      forall g
        ensures Listed(p', g)
      {
        RemoveListed(p, h, i, g);
      }
      assert Bag(p.queues) == Bag(p'.queues) + multiset{s[i].tx} by { RemoveBag(p.queues, l, i); }
    }
  }

  lemma RemoveRanks(p: Pool, h: Hash)
    requires PoolOk(p) && h in p.known
    ensures var s := p.queues.Of(p.known[h]);
            NoDuplicates(s) && h in HashesIn(s) && Ranked(Without(s, h))
  {
    var s := p.queues.Of(p.known[h]);
    LaneFacts(p, p.known[h]);
    assert Listed(p, h);
    var i :| 0 <= i < |s| && s[i].tx.hash == h;
    WithoutIs(s, h, i);
    RemoveAt(s, i);
  }

  lemma RemoveBag(q: Queues, l: Lane, i: nat)
    requires i < |q.Of(l)|
    ensures Bag(q) == Bag(q.With(l, q.Of(l)[..i] + q.Of(l)[i + 1..])) + multiset{q.Of(l)[i].tx}
  {
    var s := q.Of(l);
    assert s == s[..i] + [s[i]] + s[i + 1..];
    TxsOfAppend(s[..i] + [s[i]], s[i + 1..]);
    TxsOfAppend(s[..i], [s[i]]);
    TxsOfAppend(s[..i], s[i + 1..]);
    assert TxsOf([s[i]]) == [s[i].tx];
  }

  lemma RemoveListed(p: Pool, h: Hash, i: nat, g: Hash)
    requires PoolOk(p) && h in p.known
    requires i < |p.queues.Of(p.known[h])| && p.queues.Of(p.known[h])[i].tx.hash == h
    ensures Listed(Remove(p, h), g)
  {
    var s := p.queues.Of(p.known[h]);
    assert Listed(p, g);
    assert NoDuplicates(s) by { LaneFacts(p, p.known[h]); }
    WithoutIs(s, h, i);
    WithoutHashes(s, i);
  }

  lemma WithoutHashes(s: seq<TxMeta>, i: nat)
    requires i < |s|
    ensures HashesIn(s) == HashesIn(s[..i] + s[i + 1..]) + {s[i].tx.hash}
  {
    hide HashesIn;
    var x := s[i];
    HashesAppend(s[..i] + [x], s[i + 1..]);
    HashesAppend(s[..i], [x]);
    HashesAppend(s[..i], s[i + 1..]);
    OneHash(x);
    assert s == s[..i] + [x] + s[i + 1..];
  }

  lemma OneHash(x: TxMeta)
    ensures HashesIn([x]) == {x.tx.hash}
  {}

  lemma {:induction false} WithoutIs(s: seq<TxMeta>, h: Hash, i: nat)
    requires NoDuplicates(s) && i < |s| && s[i].tx.hash == h
    ensures Without(s, h) == s[..i] + s[i + 1..]
  {
    if i > 0 {
      assert Differ(s, 0, i);
      DistinctTail(s, 1);
      WithoutIs(s[1..], h, i - 1);
      assert s[1..][..i - 1] == s[1..i];
    }
  }

  lemma RemoveAt(s: seq<TxMeta>, i: nat)
    requires i < |s| && Ranked(s) && NoDuplicates(s)
    ensures var t := s[..i] + s[i + 1..];
            && Ranked(t) && NoDuplicates(t)
            && forall m :: m in t ==> m in s && m.tx.hash != s[i].tx.hash
  {
    var t := s[..i] + s[i + 1..];
    forall j: int, k: int
      ensures InOrder(t, j, k) && Differ(t, j, k)
    {
      var j', k' := if j < i then j else j + 1, if k < i then k else k + 1;
      assert InOrder(s, j', k') && Differ(s, j', k');
    }
    forall m | m in t
      ensures m in s && m.tx.hash != s[i].tx.hash
    {
      var j :| 0 <= j < |t| && t[j] == m;
      assert Differ(s, j, i) && Differ(s, i, j + 1);
    }
  }

  lemma RemoveLaneOk(p: Pool, h: Hash, i: nat, l': Lane)
    requires PoolOk(p) && h in p.known
    requires i < |p.queues.Of(p.known[h])| && p.queues.Of(p.known[h])[i].tx.hash == h
    ensures LaneOk(Remove(p, h), l')
  {
    var l, p' := p.known[h], Remove(p, h);
    LaneFacts(p, l);
    LaneFacts(p, l');
    WithoutIs(p.queues.Of(l), h, i);
    RemoveAt(p.queues.Of(l), i);
    forall m | m in p'.queues.Of(l')
      ensures EntryOk(p', l', m)
    {
      assert EntryOk(p, l', m);
    }
  }
}
