/** The laned mempool: three heaps and a hash index, refining the ranked pool of LanePool. */
module LanedMempool {
  import opened Common
  import opened Transactions
  import opened TxHeap
  import opened LanePool
  import LanePoolProofs
  import LaneConservation
  import LaneShares

  ghost predicate Holds(q: TxQueue, ranked: seq<TxMeta>)
    reads q
  {
    Heap(q.items) && multiset(q.items) == multiset(ranked) && Ranked(ranked)
  }

  class LanedMempool {
    var fast: TxQueue
    var std: TxQueue
    var slow: TxQueue
    var known: map<Hash, Lane>
    var clock: nat  // what time.Now() will answer next
    const maxSize: int
    const tasteScoreWeight: real
    ghost var ranks: Queues

    ghost function View(): Pool
      reads this
    {
      Pool(ranks, known, maxSize, tasteScoreWeight, clock)
    }

    function QueueOf(l: Lane): TxQueue
      reads this
    {
      match l
      case LaneFast => fast
      case LaneStandard => std
      case LaneSlow => slow
    }

    ghost predicate HeapsOk()
      reads this, fast, std, slow
    {
      && fast != std && fast != slow && std != slow
      && Holds(fast, ranks.fast) && Holds(std, ranks.std) && Holds(slow, ranks.slow)
    }

    ghost predicate Valid()
      reads this, fast, std, slow
    {
      HeapsOk() && PoolOk(View())
    }

    lemma Agrees()
      requires Valid()
      ensures PoolOk(View())
    {}

    constructor (tasteScoreWeight: real, maxSize: int, now: nat)
      ensures Valid() && View() == Empty(tasteScoreWeight, maxSize, now)
      ensures fresh(fast) && fresh(std) && fresh(slow)
    {
      fast := new TxQueue();
      std := new TxQueue();
      slow := new TxQueue();
      known := map[];
      clock := now;
      this.maxSize := maxSize;
      this.tasteScoreWeight := tasteScoreWeight;
      ranks := Queues([], [], []);
      new;
      HeapInit(fast);
      HeapInit(std);
      HeapInit(slow);
      LanePoolProofs.EmptyOk(tasteScoreWeight, maxSize, now);
    }

    method TotalLen() returns (n: nat)
      requires Valid()
      ensures n == View().queues.Size()
    {
      n := fast.Len() + std.Len() + slow.Len();
      assert |fast.items| == |multiset(fast.items)| == |ranks.fast|;
      assert |std.items| == |multiset(std.items)| == |ranks.std|;
      assert |slow.items| == |multiset(slow.items)| == |ranks.slow|;
    }

    /** Has answers from the index; the index answers for the queues. */
    method Has(h: Hash) returns (has: bool)
      requires Valid()
      ensures has <==> exists l :: h in HashesIn(ranks.Of(l))
    {
      has := h in known;
      assert has ==> h in HashesIn(ranks.Of(known[h])) by {
        assert Listed(View(), h);
      }
      forall l | h in HashesIn(ranks.Of(l))
        ensures has
      {
        LanePoolProofs.LaneFacts(View(), l);
      }
    }

    /** Pushes an entry onto its lane's heap. */
    method PushInto(lane: Lane, meta: TxMeta, ghost ranked: seq<TxMeta>)
      requires HeapsOk()
      requires Ranked(ranked) && multiset(ranked) == multiset(ranks.Of(lane)) + multiset{meta}
      modifies this`ranks, fast, std, slow
      ensures HeapsOk() && ranks == old(ranks).With(lane, ranked)
    {
      hide Heap, Ranked;
      match lane {
        case LaneFast => HeapPush(fast, meta);
        case LaneStandard => HeapPush(std, meta);
        case LaneSlow => HeapPush(slow, meta);
      }
      ranks := ranks.With(lane, ranked);
    }

    method Add(tx: Tx, sender: Address, tasteScore: real) returns (r: AddResult)
      requires Valid()
      modifies this`known, this`clock, this`ranks, fast, std, slow
      ensures Valid() && View() == LanePool.Add(old(View()), tx, sender, tasteScore)
      ensures r == AddOutcome(old(View()), tx)
    {
      hide Holds, PriorityOf, PoolOk, Ranked;
      ghost var before := View();
      if tx.hash in known {
        return AlreadyKnown;
      }
      var total := TotalLen();
      if total >= maxSize {
        return PoolFull;
      }
      var meta := ComputePriority(TxMeta(tx, tasteScore, 0.0, clock, sender), tasteScoreWeight);
      assert meta == NewMeta(before, tx, sender, tasteScore);
      var lane := ClassifyLane(tasteScore);
      ghost var ranked := Insert(ranks.Of(lane), meta);
      LanePoolProofs.InsertElements(ranks.Of(lane), meta);
      LanePoolProofs.AddLaneOk(before, tx, sender, tasteScore, lane);
      PushInto(lane, meta, ranked);
      known := known[tx.hash := lane];
      clock := clock + 1;
      r := Added;
      LanePoolProofs.AddOk(before, tx, sender, tasteScore);
    }

    /** Pops the head of a queue's ranking; if its gas does not fit it is put back. */
    static method PopIfFits(q: TxQueue, gasUsed: u64, gasLimit: u64, ghost ranked: seq<TxMeta>)
      returns (fits: bool, item: TxMeta)
      requires Holds(q, ranked) && q.items != []
      modifies q
      ensures ranked != [] && item == ranked[0]
      ensures fits <==> Wrap64(gasUsed + item.tx.gas) <= gasLimit
      ensures Holds(q, if fits then ranked[1..] else ranked)
    {
      ghost var items := q.items;
      item := HeapPop(q);
      HeadPopped(ranked, items, q.items, item);
      fits := Wrap64(gasUsed + item.tx.gas) <= gasLimit;
      if !fits {
        HeapPush(q, item);
      }
    }

    /**
      * Pops the longest prefix of a queue's ranking that fits, and drops its hashes from
      * the index; the entry that does not fit is put back.
      */
    static method DrainQueue(q: TxQueue, known: map<Hash, Lane>, maxTx: int, gasLimit: u64, ghost lane: seq<TxMeta>)
      returns (batch: seq<TxMeta>, gasUsed: u64, known': map<Hash, Lane>)
      requires Holds(q, lane)
      modifies q
      ensures |batch| == Fit(lane, maxTx, gasLimit, 0) && batch == lane[..|batch|]
      ensures Holds(q, lane[|batch|..])
      ensures gasUsed == Wrap64(GasOf(batch)) && known' == known - HashesIn(batch)
    {
      hide Holds, Drained, Fit, GasOf, HashesIn;
      batch, gasUsed, known' := [], 0, known;
      ghost var rest := lane;
      DrainStart(lane, maxTx, gasLimit);
      while q.Len() > 0 && |batch| < maxTx
        invariant Drained(lane, batch, rest, gasUsed, maxTx, gasLimit)
        invariant Holds(q, rest)
        invariant known' == known - HashesIn(batch)
        decreases |rest|
      {
        var fits, item := PopIfFits(q, gasUsed, gasLimit, rest);
        if !fits {
          break;
        }
        DrainStep(lane, batch, rest, gasUsed, maxTx, gasLimit);
        known' := known' - {item.tx.hash};
        batch := batch + [item];
        gasUsed := Wrap64(gasUsed + item.tx.gas);
        rest := rest[1..];
      }
      HoldsLength(q, rest);
      DrainStops(lane, batch, rest, gasUsed, maxTx, gasLimit);
    }

    /** For a pop in progress `s` this is one drain. */
    method DrainLane(q: TxQueue, maxTx: int, gasLimit: u64, ghost l: Lane, ghost s: Popping)
      returns (batch: seq<TxMeta>, gasUsed: u64)
      requires HeapsOk() && q == QueueOf(l) && s.pool == View()
      modifies this`known, this`ranks, q
      ensures HeapsOk() && gasUsed == Wrap64(GasOf(batch))
      ensures Drain(s, l, |s.batch| + maxTx, gasLimit) ==
              Popping(View(), s.batch + batch, Wrap64(s.remaining - GasOf(batch)))
    {
      hide Holds, Drain, Wrap64, GasOf, Fit;
      ghost var lane := ranks.Of(l);
      batch, gasUsed, known := DrainQueue(q, known, maxTx, gasLimit, lane);
      ranks := ranks.With(l, lane[|batch|..]);
      DrainIs(s, l, maxTx, gasLimit, |batch|);
    }

    /** A drain within phase 1, on running totals: the pop in progress s becomes s'. */
    method DrainNext(
      q: TxQueue, maxTx: int, batch: seq<TxMeta>, totalGas: u64, share: u64, ghost l: Lane, ghost gasLimit: u64,
      ghost s: Popping)
      returns (batch': seq<TxMeta>, totalGas': u64, ghost s': Popping)
      requires HeapsOk() && q == QueueOf(l)
      requires s == Popping(View(), batch, Wrap64(gasLimit - totalGas))
      modifies this`known, this`ranks, q
      ensures HeapsOk()
      ensures s' == Drain(s, l, maxTx, share) && s' == Popping(View(), batch', Wrap64(gasLimit - totalGas'))
    {
      hide Heap, Ranked, Drain, Wrap64, GasOf;
      var more, used := DrainLane(q, maxTx - |batch|, share, l, s);
      batch', totalGas' := batch + more, Wrap64(totalGas + used);
      WrapTotal(gasLimit, totalGas, GasOf(more));
      s' := Drain(s, l, maxTx, share);
    }

    /** Phase 1 for given shares. */
    method DrainEach(maxTx: int, fastGas: u64, stdGas: u64, slowGas: u64, ghost gasLimit: u64, ghost s0: Popping)
      returns (batch: seq<TxMeta>, totalGas: u64, ghost s3: Popping)
      requires HeapsOk() && s0 == Popping(View(), [], gasLimit)
      modifies this`known, this`ranks, fast, std, slow
      ensures HeapsOk()
      ensures s3 == Popping(View(), batch, Wrap64(gasLimit - totalGas))
      ensures s3 == Drain(Drain(Drain(s0, LaneFast, maxTx, fastGas), LaneStandard, maxTx, stdGas), LaneSlow, maxTx, slowGas)
    {
      hide Heap, Ranked, Drain, Wrap64, GasOf;
      assert Wrap64(gasLimit - 0) == gasLimit by { WrapSmall(gasLimit); }
      ghost var s;
      batch, totalGas, s := DrainNext(fast, maxTx, [], 0, fastGas, LaneFast, gasLimit, s0);
      batch, totalGas, s := DrainNext(std, maxTx, batch, totalGas, stdGas, LaneStandard, gasLimit, s);
      batch, totalGas, s3 := DrainNext(slow, maxTx, batch, totalGas, slowGas, LaneSlow, gasLimit, s);
    }

    /** Phase 1: each lane up to its share. */
    method DrainGuaranteed(maxTx: int, gasLimit: u64) returns (batch: seq<TxMeta>, totalGas: u64)
      requires HeapsOk()
      modifies this`known, this`ranks, fast, std, slow
      ensures HeapsOk()
      ensures Guaranteed(old(View()), maxTx, gasLimit) == Popping(View(), batch, Wrap64(gasLimit - totalGas))
    {
      var fastGas := Wrap64(gasLimit * 4000) / 10000;
      var stdGas := Wrap64(gasLimit * 4000) / 10000;
      var slowGas := Wrap64(gasLimit * 2000) / 10000;
      ghost var s;
      batch, totalGas, s := DrainEach(maxTx, fastGas, stdGas, slowGas, gasLimit, Popping(View(), [], gasLimit));
    }

    /** One lane of phase 2. */
    method TopUpLane(q: TxQueue, maxTx: int, batch: seq<TxMeta>, remaining: u64, ghost l: Lane)
      returns (batch': seq<TxMeta>, remaining': u64)
      requires HeapsOk() && q == QueueOf(l)
      modifies this`known, this`ranks, q
      ensures HeapsOk()
      ensures TopUp(Popping(old(View()), batch, remaining), l, maxTx) == Popping(View(), batch', remaining')
    {
      hide Heap, Ranked, Drain, Wrap64, GasOf;
      batch', remaining' := batch, remaining;
      if remaining > 0 && |batch| < maxTx {
        var extra, used := DrainLane(q, maxTx - |batch|, remaining, l, Popping(View(), batch, remaining));
        WrapSub(remaining, GasOf(extra));
        batch', remaining' := batch + extra, Wrap64(remaining - used);
      }
    }

    /** The pop of the ranked pool, on heaps: phase 1, then whatever gas is left goes to any lane, fast first. */
    method PopBatchLaned(maxTx: int, gasLimit: u64) returns (batch: seq<TxMeta>)
      requires Valid()
      modifies this`known, this`ranks, fast, std, slow
      ensures Valid() && View() == PopBatch(old(View()), maxTx, gasLimit).pool
      ensures batch == PopBatch(old(View()), maxTx, gasLimit).batch
    {
      hide Heap, Ranked, Guaranteed, TopUp, Wrap64;
      var totalGas, remaining;
      batch, totalGas := DrainGuaranteed(maxTx, gasLimit);
      remaining := Wrap64(gasLimit - totalGas);
      batch, remaining := TopUpLane(fast, maxTx, batch, remaining, LaneFast);
      batch, remaining := TopUpLane(std, maxTx, batch, remaining, LaneStandard);
      batch, remaining := TopUpLane(slow, maxTx, batch, remaining, LaneSlow);
      assert PoolOk(View()) by {
        var popped := LaneConservation.PopConserves(old(View()), maxTx, gasLimit);
      }
    }

    /** Discards one transaction by hash, wherever it is queued. */
    method Remove(h: Hash)
      requires Valid()
      modifies this`known, this`ranks, fast, std, slow
      ensures Valid() && View() == LanePool.Remove(old(View()), h)
    {
      hide Holds, PoolOk, NoDuplicates, HashesIn, Ranked, Without;
      if h !in known {
        return;
      }
      ghost var before := View();
      var lane := known[h];
      known := known - {h};
      LaneConservation.RemoveRanks(before, h);
      RemoveQueued(lane, h);
      LaneConservation.RemoveOk(before, h);
    }

    method RemoveQueued(lane: Lane, h: Hash)
      requires HeapsOk() && NoDuplicates(ranks.Of(lane)) && h in HashesIn(ranks.Of(lane))
      requires Ranked(Without(ranks.Of(lane), h))
      modifies this`ranks, fast, std, slow
      ensures HeapsOk() && ranks == old(ranks).With(lane, Without(old(ranks).Of(lane), h))
    {
      hide Heap, Ranked, NoDuplicates, HashesIn, Without;
      ghost var ranked := ranks.Of(lane);
      RemoveFrom(QueueOf(lane), h, ranked);
      ranks := ranks.With(lane, Without(ranked, h));
    }

    /** The search and removal inside the lane's queue. */
    static method RemoveFrom(q: TxQueue, h: Hash, ghost ranked: seq<TxMeta>)
      requires Holds(q, ranked) && NoDuplicates(ranked) && h in HashesIn(ranked) && Ranked(Without(ranked, h))
      modifies q
      ensures Holds(q, Without(ranked, h))
    {
      var i := 0;
      while i < |q.items| && q.items[i].tx.hash != h
        invariant i <= |q.items|
        invariant forall k :: 0 <= k < i ==> q.items[k].tx.hash != h
      {
        i := i + 1;
      }
      FoundEntry(q.items, ranked, h, i);
      var x := HeapRemove(q, i);
      assert multiset(q.items) == multiset(ranked) - multiset{x};
      assert multiset(Without(ranked, h)) == multiset(ranked) - multiset{x};
    }

    method Reset()
      requires Valid()
      modifies this
      ensures Valid() && View() == LanePool.Reset(old(View()))
      ensures fresh(fast) && fresh(std) && fresh(slow)
    {
      fast := new TxQueue();
      std := new TxQueue();
      slow := new TxQueue();
      known := map[];
      ranks := Queues([], [], []);
      HeapInit(fast);
      HeapInit(std);
      HeapInit(slow);
      LanePoolProofs.ResetOk(old(View()));
    }
  }

  /** Where a drain stands: taken so far, and still ranked behind it. */
  ghost predicate Drained(
    lane: seq<TxMeta>, batch: seq<TxMeta>, rest: seq<TxMeta>, gasUsed: u64, maxTx: int, gasLimit: u64)
  {
    && lane == batch + rest
    && gasUsed == Wrap64(GasOf(batch))
    && Fit(lane, maxTx, gasLimit, 0) == |batch| + Fit(rest, maxTx - |batch|, gasLimit, gasUsed)
  }

  lemma DrainStart(lane: seq<TxMeta>, maxTx: int, gasLimit: u64)
    ensures Drained(lane, [], lane, 0, maxTx, gasLimit) && HashesIn([]) == {}
  {}

  lemma DrainStep(
    lane: seq<TxMeta>, batch: seq<TxMeta>, rest: seq<TxMeta>, gasUsed: u64, maxTx: int, gasLimit: u64)
    requires Drained(lane, batch, rest, gasUsed, maxTx, gasLimit)
    requires rest != [] && |batch| < maxTx && Wrap64(gasUsed + rest[0].tx.gas) <= gasLimit
    ensures Drained(lane, batch + [rest[0]], rest[1..], Wrap64(gasUsed + rest[0].tx.gas), maxTx, gasLimit)
    ensures HashesIn(batch + [rest[0]]) == HashesIn(batch) + {rest[0].tx.hash}
  {
    hide HashesIn, Wrap64;
    var x := rest[0];
    LaneConservation.OneHash(x);
    LaneShares.GasOfAppend(batch, [x]);
    LaneConservation.HashesAppend(batch, [x]);
    WrapAdd(GasOf(batch), x.tx.gas);
    assert rest == [x] + rest[1..];
    assert batch + ([x] + rest[1..]) == (batch + [x]) + rest[1..];
  }

  lemma HoldsLength(q: TxQueue, ranked: seq<TxMeta>)
    requires Holds(q, ranked)
    ensures |q.items| == |ranked|
  {
    assert |multiset(q.items)| == |q.items| && |multiset(ranked)| == |ranked|;
  }

  lemma DrainStops(
    lane: seq<TxMeta>, batch: seq<TxMeta>, rest: seq<TxMeta>, gasUsed: u64, maxTx: int, gasLimit: u64)
    requires Drained(lane, batch, rest, gasUsed, maxTx, gasLimit)
    requires rest == [] || |batch| >= maxTx || Wrap64(gasUsed + rest[0].tx.gas) > gasLimit
    ensures Fit(lane, maxTx, gasLimit, 0) == |batch| && gasUsed == Wrap64(GasOf(batch))
    ensures batch == lane[..|batch|] && rest == lane[|batch|..]
  {}

  lemma WrapShift(x: int, q: int)
    ensures Wrap64(x + 0x1_0000_0000_0000_0000 * q) == Wrap64(x)
  {
    var d, r := x / 0x1_0000_0000_0000_0000, x % 0x1_0000_0000_0000_0000;
    assert x + 0x1_0000_0000_0000_0000 * q == 0x1_0000_0000_0000_0000 * (d + q) + r;
  }

  lemma WrapAdd(a: int, b: int)
    ensures Wrap64(Wrap64(a) + b) == Wrap64(a + b)
  {
    WrapShift(a + b, -(a / 0x1_0000_0000_0000_0000));
  }

  lemma WrapSub(a: int, b: int)
    ensures Wrap64(a - Wrap64(b)) == Wrap64(a - b)
  {
    WrapShift(a - b, b / 0x1_0000_0000_0000_0000);
  }

  /** Subtracting a wrapped running total is subtracting its parts one by one. */
  lemma WrapTotal(limit: u64, total: u64, used: nat)
    ensures Wrap64(limit - Wrap64(total + Wrap64(used))) == Wrap64(Wrap64(limit - total) - used)
  {
    WrapAdd(used, total);
    WrapSub(limit, total + used);
    var minusUsed: int := 0 - used;
    WrapAdd(limit - total, minusUsed);
  }

  lemma DrainIs(s: Popping, l: Lane, maxTx: int, gasLimit: u64, k: nat)
    requires Fit(s.pool.queues.Of(l), maxTx, gasLimit, 0) == k
    ensures var q := s.pool.queues.Of(l);
            Drain(s, l, |s.batch| + maxTx, gasLimit) ==
            Popping(Take(s.pool, l, k), s.batch + q[..k], Wrap64(s.remaining - GasOf(q[..k])))
  {
    assert |s.batch| + maxTx - |s.batch| == maxTx;
  }

  /** Popping the heap pops the head of the ranking. */
  lemma HeadPopped(ranked: seq<TxMeta>, before: seq<TxMeta>, after: seq<TxMeta>, x: TxMeta)
    requires Ranked(ranked) && multiset(before) == multiset(ranked)
    requires multiset(after) + multiset{x} == multiset(before)
    requires forall k :: 0 <= k < |before| ==> !Before(before[k], x)
    ensures ranked != [] && x == ranked[0] && multiset(after) == multiset(ranked[1..]) && Ranked(ranked[1..])
  {
    assert x in multiset(before);
    LanePoolProofs.FirstIsHead(before, ranked, x);
    LanePoolProofs.RankedTail(ranked, 1);
    assert ranked == [x] + ranked[1..];
    assert multiset(after) == multiset(before) - multiset{x};
    assert multiset(ranked[1..]) == multiset(ranked) - multiset{x};
  }

  lemma SameMembers(s: seq<TxMeta>, t: seq<TxMeta>, x: TxMeta)
    requires multiset(s) == multiset(t) && x in s
    ensures x in t
  {
    assert x in multiset(s);
  }

  lemma OneOut(s: seq<TxMeta>, k: nat)
    requires k < |s|
    ensures multiset(s) == multiset(s[..k] + s[k + 1..]) + multiset{s[k]}
  {
    assert s == s[..k] + [s[k]] + s[k + 1..];
  }

  /** The entry a linear search for a hash stops at is the one the ranking drops. */
  lemma FoundEntry(items: seq<TxMeta>, ranked: seq<TxMeta>, h: Hash, i: nat)
    requires multiset(items) == multiset(ranked) && NoDuplicates(ranked) && h in HashesIn(ranked)
    requires i <= |items| && (forall k :: 0 <= k < i ==> items[k].tx.hash != h)
    requires i < |items| ==> items[i].tx.hash == h
    ensures i < |items|
    ensures multiset(items) == multiset(Without(ranked, h)) + multiset{items[i]}
  {
    hide NoDuplicates, Without;
    var j :| 0 <= j < |ranked| && ranked[j].tx.hash == h;
    SameMembers(ranked, items, ranked[j]);
    SameMembers(items, ranked, items[i]);
    var k :| 0 <= k < |ranked| && ranked[k] == items[i];
    LaneConservation.WithoutIs(ranked, h, k);
    OneOut(ranked, k);
  }
}
