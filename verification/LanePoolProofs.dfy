/** Ranking, and index agreement, for adding, taking and resetting. */
module LanePoolProofs {
  import opened Common
  import opened Transactions
  import opened TxHeap
  import opened LanePool

  // ---------- ranking ----------

  lemma {:induction false} InsertCounts(s: seq<TxMeta>, x: TxMeta)
    ensures multiset(Insert(s, x)) == multiset(s) + multiset{x}
    ensures |Insert(s, x)| == |s| + 1
  {
    if s != [] && !Before(x, s[0]) {
      InsertCounts(s[1..], x);
      assert s == [s[0]] + s[1..];
    }
  }

  lemma InsertElements(s: seq<TxMeta>, x: TxMeta)
    ensures multiset(Insert(s, x)) == multiset(s) + multiset{x}
    ensures |Insert(s, x)| == |s| + 1
    ensures forall y :: y in Insert(s, x) <==> y == x || y in s
  {
    hide Insert;
    InsertCounts(s, x);
    forall y
      ensures y in Insert(s, x) <==> y == x || y in s
    {
      assert y in Insert(s, x) <==> y in multiset(Insert(s, x));
      assert y in s <==> y in multiset(s);
    }
  }

  lemma RankedTail(s: seq<TxMeta>, k: nat)
    requires Ranked(s) && k <= |s|
    ensures Ranked(s[k..])
  {
    forall i: int, j: int
      ensures InOrder(s[k..], i, j)
    {
      assert InOrder(s, k + i, k + j);
    }
  }

  /** A head that comes before everything in a ranked list makes a longer ranked list. */
  lemma RankedCons(x: TxMeta, s: seq<TxMeta>)
    requires Ranked(s) && forall y :: y in s ==> Before(x, y)
    ensures Ranked([x] + s)
  {
    forall i: int, j: int
      ensures InOrder([x] + s, i, j)
    {
      assert InOrder(s, i - 1, j - 1);
      if 0 == i < j < |s| + 1 {
        assert s[j - 1] in s;
      }
    }
  }

  lemma HeadFirst(s: seq<TxMeta>, y: TxMeta)
    requires Ranked(s) && y in s
    ensures y == s[0] || Before(s[0], y)
  {
    var k :| 0 <= k < |s| && s[k] == y;
    assert InOrder(s, 0, k);
  }

  lemma {:induction false} InsertRanks(s: seq<TxMeta>, x: TxMeta)
    requires Ranked(s)
    requires forall y :: y in s ==> y.receivedAt != x.receivedAt
    ensures Ranked(Insert(s, x))
  {
    if s == [] {
      RankedCons(x, []);
    } else if Before(x, s[0]) {
      forall y | y in s
        ensures Before(x, y)
      {
        HeadFirst(s, y);
      }
      RankedCons(x, s);
    } else {
      assert s[0] in s && Before(s[0], x);
      RankedTail(s, 1);
      InsertRanks(s[1..], x);
      InsertElements(s[1..], x);
      forall y | y in Insert(s[1..], x)
        ensures Before(s[0], y)
      {
        if y != x {
          var k :| 0 <= k < |s[1..]| && s[1..][k] == y;
          assert InOrder(s, 0, k + 1);
        }
      }
      RankedCons(s[0], Insert(s[1..], x));
    }
  }

  lemma TailBag(s: seq<TxMeta>)
    requires s != []
    ensures s == [s[0]] + s[1..] && multiset(s[1..]) == multiset(s) - multiset{s[0]}
  {
    assert s == [s[0]] + s[1..];
  }

  /** The ranking of a lane is determined by its entries: two rankings of the same entries are equal. */
  lemma {:induction false} RankingUnique(s: seq<TxMeta>, t: seq<TxMeta>)
    requires Ranked(s) && Ranked(t) && multiset(s) == multiset(t)
    ensures s == t
  {
    if s == [] {
      assert |multiset(t)| == 0;
    } else {
      hide Ranked;
      HeadsAgree(s, t);
      TailBag(s);
      TailBag(t);
      RankedTail(s, 1);
      RankedTail(t, 1);
      RankingUnique(s[1..], t[1..]);
    }
  }

  lemma HeadsAgree(s: seq<TxMeta>, t: seq<TxMeta>)
    requires Ranked(s) && Ranked(t) && multiset(s) == multiset(t) && s != []
    ensures t != [] && s[0] == t[0]
  {
    assert s[0] in multiset(t);
    HeadFirst(t, s[0]);
    assert t[0] in multiset(s);
    HeadFirst(s, t[0]);
  }

  /** An entry that nothing comes before is the head of the ranking. */
  lemma FirstIsHead(items: seq<TxMeta>, ranked: seq<TxMeta>, x: TxMeta)
    requires Ranked(ranked) && multiset(items) == multiset(ranked)
    requires x in multiset(items)
    requires forall k :: 0 <= k < |items| ==> !Before(items[k], x)
    ensures ranked != [] && x == ranked[0]
  {
    assert x in multiset(ranked);
    HeadFirst(ranked, x);
    assert ranked[0] in multiset(items);
    var k :| 0 <= k < |items| && items[k] == ranked[0];
  }

  // ---------- index agreement ----------

  lemma EmptyOk(weight: real, maxSize: int, clock: nat)
    ensures PoolOk(Empty(weight, maxSize, clock))
  {}

  lemma ResetOk(p: Pool)
    ensures PoolOk(Reset(p))
  {}

  /** What index agreement says about one lane. */
  lemma LaneFacts(p: Pool, l: Lane)
    requires PoolOk(p)
    ensures LaneOk(p, l)
    ensures NoDuplicates(p.queues.Of(l)) && HashesIn(p.queues.Of(l)) <= p.known.Keys
    ensures forall m :: m in p.queues.Of(l) ==> EntryOk(p, l, m)
  {
    assert LaneOk(p, l);
    forall m | m in p.queues.Of(l)
      ensures EntryOk(p, l, m)
    {}
  }

  lemma DistinctTail(s: seq<TxMeta>, k: nat)
    requires NoDuplicates(s) && k <= |s|
    ensures NoDuplicates(s[k..]) && NoDuplicates(s[..k]) && HashesIn(s[..k]) !! HashesIn(s[k..])
  {
    forall i: int, j: int
      ensures Differ(s[k..], i, j) && Differ(s[..k], i, j)
    {
      assert Differ(s, k + i, k + j) && Differ(s, i, j);
    }
    forall i, j | 0 <= i < k <= j < |s|
      ensures s[i].tx.hash != s[j].tx.hash
    {
      assert Differ(s, i, j);
    }
  }

  lemma DistinctCons(x: TxMeta, s: seq<TxMeta>)
    requires NoDuplicates(s) && x.tx.hash !in HashesIn(s)
    ensures NoDuplicates([x] + s)
  {
    forall i: int, j: int
      ensures Differ([x] + s, i, j)
    {
      assert Differ(s, i - 1, j - 1);
      if 0 == i < j < |s| + 1 {
        assert s[j - 1] in s;
      }
    }
  }

  lemma {:induction false} InsertDistinct(s: seq<TxMeta>, x: TxMeta)
    requires NoDuplicates(s) && x.tx.hash !in HashesIn(s)
    ensures NoDuplicates(Insert(s, x)) && HashesIn(Insert(s, x)) == HashesIn(s) + {x.tx.hash}
  {
    InsertElements(s, x);
    if s == [] {
      DistinctCons(x, []);
    } else if Before(x, s[0]) {
      DistinctCons(x, s);
    } else {
      assert s == [s[0]] + s[1..];
      DistinctTail(s, 1);
      assert s[0] in s[..1];
      InsertDistinct(s[1..], x);
      DistinctCons(s[0], Insert(s[1..], x));
    }
  }

  lemma AddOk(p: Pool, tx: Tx, sender: Address, score: real)
    requires PoolOk(p)
    ensures PoolOk(Add(p, tx, sender, score))
    ensures Add(p, tx, sender, score).known.Keys ==
            p.known.Keys + (if AddOutcome(p, tx) == Added then {tx.hash} else {})
  {
    if AddOutcome(p, tx) == Added {
      var x, p' := NewMeta(p, tx, sender, score), Add(p, tx, sender, score);
      InsertElements(p.queues.Of(ClassifyLane(score)), x);
      forall l
        ensures LaneOk(p', l)
      {
        AddLaneOk(p, tx, sender, score, l);
      }
      forall h
        ensures Listed(p', h)
      {
        assert Listed(p, h);
        assert x in Insert(p.queues.Of(ClassifyLane(score)), x);
      }
    }
  }

  lemma AddLaneOk(p: Pool, tx: Tx, sender: Address, score: real, l': Lane)
    requires PoolOk(p) && AddOutcome(p, tx) == Added
    ensures LaneOk(Add(p, tx, sender, score), l')
  {
    var l, p' := ClassifyLane(score), Add(p, tx, sender, score);
    LaneFacts(p, l');
    if l == l' {
      InsertLaneOk(p, p', l, NewMeta(p, tx, sender, score));
    } else {
      forall m | m in p'.queues.Of(l')
        ensures EntryOk(p', l', m)
      {
        assert EntryOk(p, l', m);
      }
    }
  }

  lemma InsertLaneOk(p: Pool, p': Pool, l: Lane, x: TxMeta)
    requires LaneOk(p, l) && p'.queues.Of(l) == Insert(p.queues.Of(l), x)
    requires p'.known == p.known[x.tx.hash := l] && p'.clock == p.clock + 1
    requires x.tx.hash !in p.known && x.receivedAt == p.clock && ClassifyLane(x.tasteScore) == l
    requires p'.weight == p.weight && x.priority == PriorityOf(p.weight, x.tx.gasPrice, x.tasteScore)
    ensures LaneOk(p', l)
  {
    hide PriorityOf, ClassifyLane;
    var s := p.queues.Of(l);
    forall m | m in s
      ensures m.receivedAt != x.receivedAt && m.tx.hash != x.tx.hash && EntryOk(p', l, m)
    {
      assert EntryOk(p, l, m);
    }
    InsertElements(s, x);
    InsertRanks(s, x);
    InsertDistinct(s, x);
    assert EntryOk(p', l, x);
  }

  lemma InPrefixOrRest(s: seq<TxMeta>, k: nat)
    requires k <= |s|
    ensures HashesIn(s) == HashesIn(s[..k]) + HashesIn(s[k..])
  {
    assert s == s[..k] + s[k..];
  }

  /** Taking a prefix of one lane keeps the index in agreement. */
  lemma TakeOk(p: Pool, l: Lane, k: nat)
    requires PoolOk(p) && k <= |p.queues.Of(l)|
    ensures PoolOk(Take(p, l, k))
  {
    var s, p' := p.queues.Of(l), Take(p, l, k);
    forall l'
      ensures LaneOk(p', l')
    {
      TakeLaneOk(p, l, k, l');
    }
    InPrefixOrRest(s, k);
    forall h
      ensures Listed(p', h)
    {
      assert Listed(p, h);
    }
  }

  lemma TakeLaneOk(p: Pool, l: Lane, k: nat, l': Lane)
    requires PoolOk(p) && k <= |p.queues.Of(l)|
    ensures LaneOk(Take(p, l, k), l')
  {
    LaneFacts(p, l);
    LaneFacts(p, l');
    var s, p' := p.queues.Of(l), Take(p, l, k);
    var t := p'.queues.Of(l');
    RankedTail(s, k);
    DistinctTail(s, k);
    forall m | m in t
      ensures EntryOk(p', l', m)
    {
      assert m in p.queues.Of(l') && EntryOk(p, l', m);
      if l != l' {
        forall i | 0 <= i < k
          ensures s[i].tx.hash != m.tx.hash
        {
          assert s[i] in s && EntryOk(p, l, s[i]);
        }
      }
    }
  }
}
