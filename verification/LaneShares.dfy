/** What a popped batch contains: longest prefixes within shares, then work conservation. */
module LaneShares {
  import opened Common
  import opened Transactions
  import opened LanePool

  /** No gas sum in a pop can wrap: a condition on the limit and the queued gas alone. */
  predicate GasFits(p: Pool, gasLimit: u64) {
    && LaneFits(p.queues.fast, gasLimit) && LaneFits(p.queues.std, gasLimit) && LaneFits(p.queues.slow, gasLimit)
  }

  predicate LaneFits(s: seq<TxMeta>, gasLimit: u64) {
    forall m :: m in s ==> m.tx.gas + gasLimit < U64
  }

  lemma {:induction false} GasOfAppend(s: seq<TxMeta>, t: seq<TxMeta>)
    ensures GasOf(s + t) == GasOf(s) + GasOf(t)
  {
    if s == [] {
      assert s + t == t;
    } else {
      GasOfAppend(s[1..], t);
      assert (s + t)[1..] == s[1..] + t;
    }
  }

  /** k entries fit by count and gas, and no longer prefix does. */
  ghost predicate Longest(s: seq<TxMeta>, k: nat, maxTx: int, gas: nat) {
    && k <= |s| && k <= Max(maxTx, 0) && GasOf(s[..k]) <= gas
    && (k < |s| && k < maxTx ==> GasOf(s[..k]) + s[k].tx.gas > gas)
  }

  /** Said over all prefixes: those that fit are exactly those no longer than k. */
  lemma LongestCoversAll(s: seq<TxMeta>, k: nat, maxTx: int, gas: nat, j: nat)
    requires Longest(s, k, maxTx, gas) && j <= |s|
    ensures j <= k <==> j <= Max(maxTx, 0) && GasOf(s[..j]) <= gas
  {
    if j <= k {
      assert s[..k] == s[..j] + s[j..k];
      GasOfAppend(s[..j], s[j..k]);
    } else if j <= Max(maxTx, 0) {
      assert s[..j] == s[..k] + [s[k]] + s[k + 1..j];
      GasOfAppend(s[..k] + [s[k]], s[k + 1..j]);
      GasOfAppend(s[..k], [s[k]]);
    }
  }

  /** An entry that fits in front of a longest prefix makes one that is longer by one. */
  lemma LongestCons(x: TxMeta, s: seq<TxMeta>, k: nat, maxTx: int, gas: nat)
    requires x.tx.gas <= gas && maxTx > 0 && Longest(s, k, maxTx - 1, gas - x.tx.gas)
    ensures Longest([x] + s, k + 1, maxTx, gas)
  {
    assert ([x] + s)[..k + 1] == [x] + s[..k];
    assert ([x] + s[..k])[1..] == s[..k];
  }

  lemma LongestNone(s: seq<TxMeta>, maxTx: int, gas: nat)
    requires s == [] || maxTx <= 0 || s[0].tx.gas > gas
    ensures Longest(s, 0, maxTx, gas)
  {
    assert GasOf(s[..0]) == 0;
  }

  lemma FitsTail(s: seq<TxMeta>, gasLimit: u64)
    requires LaneFits(s, gasLimit) && s != []
    ensures s[0].tx.gas + gasLimit < U64 && LaneFits(s[1..], gasLimit) && s == [s[0]] + s[1..]
  {
    assert s[0] in s;
  }

  lemma {:induction false} FitIsLongest(s: seq<TxMeta>, maxTx: int, gasLimit: u64, used: u64)
    requires LaneFits(s, gasLimit) && used <= gasLimit
    ensures Longest(s, Fit(s, maxTx, gasLimit, used), maxTx, gasLimit - used)
  {
    hide Longest, LaneFits;
    if s != [] && maxTx > 0 {
      FitsTail(s, gasLimit);
      WrapSmall(used + s[0].tx.gas);
      if used + s[0].tx.gas <= gasLimit {
        FitIsLongest(s[1..], maxTx - 1, gasLimit, used + s[0].tx.gas);
        LongestCons(
          s[0], s[1..], Fit(s[1..], maxTx - 1, gasLimit, used + s[0].tx.gas), maxTx, gasLimit - used);
      } else {
        LongestNone(s, maxTx, gasLimit - used);
      }
    } else {
      LongestNone(s, maxTx, gasLimit - used);
    }
  }

  /** s became t by moving the front of one lane, now `front`, into the batch. */
  ghost predicate Moved(s: Popping, t: Popping, l: Lane, front: seq<TxMeta>, rest: seq<TxMeta>) {
    && s.pool.queues.Of(l) == front + rest
    && t.pool.queues == s.pool.queues.With(l, rest)
    && t.batch == s.batch + front
    && GasOf(front) <= s.remaining && t.remaining == s.remaining - GasOf(front)
  }

  lemma TakeMoves(s: Popping, l: Lane, k: nat)
    requires k <= |s.pool.queues.Of(l)| && GasOf(s.pool.queues.Of(l)[..k]) <= s.remaining
    ensures var q := s.pool.queues.Of(l);
            Moved(s, Popping(Take(s.pool, l, k), s.batch + q[..k], Wrap64(s.remaining - GasOf(q[..k]))), l, q[..k], q[k..])
  {
    var q := s.pool.queues.Of(l);
    assert q == q[..k] + q[k..];
    WrapSmall(s.remaining - GasOf(q[..k]));
  }

  lemma LongestWithin(s: seq<TxMeta>, k: nat, maxTx: int, gas: nat)
    requires Longest(s, k, maxTx, gas)
    ensures k <= |s| && GasOf(s[..k]) <= gas
  {}

  /** One drain, with nothing wrapping. */
  lemma DrainExact(s: Popping, l: Lane, maxTx: int, gasLimit: u64) returns (k: nat, t: Popping)
    requires LaneFits(s.pool.queues.Of(l), gasLimit) && gasLimit <= s.remaining
    ensures t == Drain(s, l, maxTx, gasLimit)
    ensures var q := s.pool.queues.Of(l);
            && Longest(q, k, maxTx - |s.batch|, gasLimit)
            && Moved(s, t, l, q[..k], q[k..])
  {
    hide LaneFits, GasOf, Take, Fit, Longest, Moved;
    var q := s.pool.queues.Of(l);
    k := Fit(q, maxTx - |s.batch|, gasLimit, 0);
    FitIsLongest(q, maxTx - |s.batch|, gasLimit, 0);
    LongestWithin(q, k, maxTx - |s.batch|, gasLimit);
    TakeMoves(s, l, k);
    t := Drain(s, l, maxTx, gasLimit);
  }

  // ---------- phase 1 ----------

  lemma WrapBelow(x: nat)
    ensures Wrap64(x) <= x && (x >= U64 ==> Wrap64(x) <= x - U64)
  {}

  /**
    * The shares are 40, 40 and 20 percent exactly as long as 4,000 times the limit fits in
    * 64 bits; beyond that some are less.  Together they never exceed the limit.
    */
  lemma SharesExactly(gasLimit: u64)
    ensures 2 * Share(gasLimit, 4000) + Share(gasLimit, 2000) <= gasLimit
    ensures gasLimit * 4000 < U64 <==>
            Share(gasLimit, 4000) == gasLimit * 40 / 100 && Share(gasLimit, 2000) == gasLimit * 20 / 100
  {
    WrapBelow(gasLimit * 4000);
    WrapBelow(gasLimit * 2000);
    if gasLimit * 4000 < U64 {
      WrapSmall(gasLimit * 4000);
      WrapSmall(gasLimit * 2000);
    }
  }

  /** The three guaranteed prefixes. */
  ghost predicate Guarantees(q: Queues, maxTx: int, gasLimit: u64, a: nat, b: nat, c: nat) {
    && Longest(q.fast, a, maxTx, Share(gasLimit, 4000))
    && Longest(q.std, b, maxTx - a, Share(gasLimit, 4000))
    && Longest(q.slow, c, maxTx - a - b, Share(gasLimit, 2000))
  }

  lemma GuaranteedExact(p: Pool, maxTx: int, gasLimit: u64) returns (a: nat, b: nat, c: nat)
    requires GasFits(p, gasLimit)
    ensures var q := p.queues;
            var s := Guaranteed(p, maxTx, gasLimit);
            && Guarantees(q, maxTx, gasLimit, a, b, c)
            && s.batch == q.fast[..a] + q.std[..b] + q.slow[..c]
            && s.pool.queues == Queues(q.fast[a..], q.std[b..], q.slow[c..])
            && s.remaining == gasLimit - GasOf(q.fast[..a]) - GasOf(q.std[..b]) - GasOf(q.slow[..c])
  {
    hide Longest, Moved, Share, Drain, LaneFits;
    var s1, s2, s3;
    var s0, wide, narrow := Popping(p, [], gasLimit), Share(gasLimit, 4000), Share(gasLimit, 2000);
    LanesFit(p, gasLimit, wide, narrow);
    a, b, c, s1, s2, s3 := DrainsMove(s0, maxTx, wide, narrow);
    ThreeMoves(s0, s1, s2, s3, p.queues, a, b, c);
  }

  lemma LanesFit(p: Pool, gasLimit: u64, wide: u64, narrow: u64)
    requires GasFits(p, gasLimit) && wide == Share(gasLimit, 4000) && narrow == Share(gasLimit, 2000)
    ensures 2 * wide + narrow <= gasLimit
    ensures LaneFits(p.queues.fast, wide) && LaneFits(p.queues.std, wide) && LaneFits(p.queues.slow, narrow)
  {
    SharesExactly(gasLimit);
  }

  /** Only the lane drained changes, and its front is paid for. */
  lemma AfterMove(s: Popping, t: Popping, l: Lane, front: seq<TxMeta>, rest: seq<TxMeta>)
    requires Moved(s, t, l, front, rest)
    ensures t.pool.queues == s.pool.queues.With(l, rest)
    ensures GasOf(front) <= s.remaining && t.remaining == s.remaining - GasOf(front)
  {}

  lemma DrainsMove(s0: Popping, maxTx: int, wide: u64, narrow: u64)
    returns (a: nat, b: nat, c: nat, s1: Popping, s2: Popping, s3: Popping)
    requires 2 * wide + narrow <= s0.remaining
    requires LaneFits(s0.pool.queues.fast, wide) && LaneFits(s0.pool.queues.std, wide) && LaneFits(s0.pool.queues.slow, narrow)
    ensures s3 == Drain(Drain(Drain(s0, LaneFast, maxTx, wide), LaneStandard, maxTx, wide), LaneSlow, maxTx, narrow)
    ensures var q := s0.pool.queues;
            && a <= |q.fast| && b <= |q.std| && c <= |q.slow|
            && Longest(q.fast, a, maxTx - |s0.batch|, wide)
            && Longest(q.std, b, maxTx - |s1.batch|, wide)
            && Longest(q.slow, c, maxTx - |s2.batch|, narrow)
            && Moved(s0, s1, LaneFast, q.fast[..a], q.fast[a..])
            && Moved(s1, s2, LaneStandard, q.std[..b], q.std[b..])
            && Moved(s2, s3, LaneSlow, q.slow[..c], q.slow[c..])
  {
    hide Drain, Longest, Moved, LaneFits;
    var q := s0.pool.queues;
    a, s1 := DrainExact(s0, LaneFast, maxTx, wide);
    LongestWithin(q.fast, a, maxTx - |s0.batch|, wide);
    AfterMove(s0, s1, LaneFast, q.fast[..a], q.fast[a..]);
    b, s2 := DrainExact(s1, LaneStandard, maxTx, wide);
    LongestWithin(q.std, b, maxTx - |s1.batch|, wide);
    AfterMove(s1, s2, LaneStandard, q.std[..b], q.std[b..]);
    c, s3 := DrainExact(s2, LaneSlow, maxTx, narrow);
    LongestWithin(q.slow, c, maxTx - |s2.batch|, narrow);
  }

  lemma ThreeMoves(s0: Popping, s1: Popping, s2: Popping, s3: Popping, q: Queues, a: nat, b: nat, c: nat)
    requires a <= |q.fast| && b <= |q.std| && c <= |q.slow|
    requires s0.pool.queues == q && s0.batch == []
    requires Moved(s0, s1, LaneFast, q.fast[..a], q.fast[a..])
    requires Moved(s1, s2, LaneStandard, q.std[..b], q.std[b..])
    requires Moved(s2, s3, LaneSlow, q.slow[..c], q.slow[c..])
    ensures |s0.batch| == 0 && |s1.batch| == a && |s2.batch| == a + b
    ensures s3.batch == q.fast[..a] + q.std[..b] + q.slow[..c]
    ensures s3.pool.queues == Queues(q.fast[a..], q.std[b..], q.slow[c..])
    ensures s3.remaining == s0.remaining - GasOf(q.fast[..a]) - GasOf(q.std[..b]) - GasOf(q.slow[..c])
  {}

  // ---------- phase 2 ----------

  /** A lane's prefix grows from k to k2 when gas and room are left, again as far as it can. */
  ghost predicate Grows(s: seq<TxMeta>, k: nat, k2: nat, room: int, gas: int) {
    && k <= k2 <= |s|
    && (if gas > 0 && room > 0 then Longest(s[k..], k2 - k, room, gas) else k2 == k)
  }

  lemma TopUpExact(s: Popping, l: Lane, maxTx: int, lane: seq<TxMeta>, k: nat) returns (k2: nat, t: Popping)
    requires k <= |lane| && s.pool.queues.Of(l) == lane[k..] && LaneFits(lane, s.remaining)
    ensures k2 <= |lane| && k <= k2 && Grows(lane, k, k2, maxTx - |s.batch|, s.remaining)
    ensures t == TopUp(s, l, maxTx) && t.remaining <= s.remaining
    ensures Moved(s, t, l, lane[k..k2], lane[k2..])
  {
    k2, t := k, s;
    if s.remaining > 0 && |s.batch| < maxTx {
      var n;
      n, t := DrainExact(s, l, maxTx, s.remaining);
      k2 := k + n;
      SliceOfSlice(lane, k, k2);
    } else {
      assert lane[k..k] == [] && s.pool.queues.With(l, lane[k..]) == s.pool.queues;
      assert s.batch + [] == s.batch;
    }
  }

  lemma SliceOfSlice(s: seq<TxMeta>, k: nat, k2: nat)
    requires k <= k2 <= |s|
    ensures s[k..][..k2 - k] == s[k..k2] && s[k..][k2 - k..] == s[k2..]
  {}

  /** Where the two prefixes of each lane end. */
  datatype Cuts = Cuts(a: nat, b: nat, c: nat, a2: nat, b2: nat, c2: nat)

  ghost predicate Within(q: Queues, k: Cuts) {
    k.a <= k.a2 <= |q.fast| && k.b <= k.b2 <= |q.std| && k.c <= k.c2 <= |q.slow|
  }

  /** Gas left over by the guaranteed prefixes, and then by each extension in lane order. */
  ghost function Left0(q: Queues, k: Cuts, gasLimit: nat): int
    requires Within(q, k)
  {
    gasLimit - GasOf(q.fast[..k.a]) - GasOf(q.std[..k.b]) - GasOf(q.slow[..k.c])
  }

  ghost function Left1(q: Queues, k: Cuts, gasLimit: nat): int
    requires Within(q, k)
  {
    Left0(q, k, gasLimit) - GasOf(q.fast[k.a..k.a2])
  }

  ghost function Left2(q: Queues, k: Cuts, gasLimit: nat): int
    requires Within(q, k)
  {
    Left1(q, k, gasLimit) - GasOf(q.std[k.b..k.b2])
  }

  ghost function Left3(q: Queues, k: Cuts, gasLimit: nat): int
    requires Within(q, k)
  {
    Left2(q, k, gasLimit) - GasOf(q.slow[k.c..k.c2])
  }

  ghost predicate Extensions(q: Queues, k: Cuts, maxTx: int, gasLimit: nat)
    requires Within(q, k)
  {
    var room := maxTx - k.a - k.b - k.c;
    && Left3(q, k, gasLimit) >= 0
    && Grows(q.fast, k.a, k.a2, room, Left0(q, k, gasLimit))
    && Grows(q.std, k.b, k.b2, room - (k.a2 - k.a), Left1(q, k, gasLimit))
    && Grows(q.slow, k.c, k.c2, room - (k.a2 - k.a) - (k.b2 - k.b), Left2(q, k, gasLimit))
  }

  ghost function BatchOf(q: Queues, k: Cuts): seq<TxMeta>
    requires Within(q, k)
  {
    q.fast[..k.a] + q.std[..k.b] + q.slow[..k.c] + q.fast[k.a..k.a2] + q.std[k.b..k.b2] + q.slow[k.c..k.c2]
  }

  /**
    * The two-phase pop, exactly: guaranteed prefixes of the three ranked lanes, then
    * longest extensions in lane order, and the rest stays queued in rank order.
    */
  lemma PopExact(p: Pool, maxTx: int, gasLimit: u64) returns (k: Cuts)
    requires GasFits(p, gasLimit)
    ensures Within(p.queues, k)
    ensures Guarantees(p.queues, maxTx, gasLimit, k.a, k.b, k.c)
    ensures Extensions(p.queues, k, maxTx, gasLimit)
    ensures var q, s := p.queues, PopBatch(p, maxTx, gasLimit);
            && s.batch == BatchOf(q, k)
            && s.pool.queues == Queues(q.fast[k.a2..], q.std[k.b2..], q.slow[k.c2..])
            && s.remaining == Left3(q, k, gasLimit)
  {
    var a, b, c := GuaranteedExact(p, maxTx, gasLimit);
    k := ThreeTopUps(Guaranteed(p, maxTx, gasLimit), maxTx, gasLimit, p.queues, a, b, c);
  }

  lemma ThreeTopUps(s0: Popping, maxTx: int, gasLimit: u64, q: Queues, a: nat, b: nat, c: nat) returns (k: Cuts)
    requires a <= |q.fast| && b <= |q.std| && c <= |q.slow|
    requires s0.batch == q.fast[..a] + q.std[..b] + q.slow[..c]
    requires s0.pool.queues == Queues(q.fast[a..], q.std[b..], q.slow[c..])
    requires s0.remaining == gasLimit - GasOf(q.fast[..a]) - GasOf(q.std[..b]) - GasOf(q.slow[..c])
    requires LaneFits(q.fast, gasLimit) && LaneFits(q.std, gasLimit) && LaneFits(q.slow, gasLimit)
    ensures Within(q, k) && k.a == a && k.b == b && k.c == c
    ensures Extensions(q, k, maxTx, gasLimit)
    ensures var s := TopUp(TopUp(TopUp(s0, LaneFast, maxTx), LaneStandard, maxTx), LaneSlow, maxTx);
            && s.batch == BatchOf(q, k)
            && s.pool.queues == Queues(q.fast[k.a2..], q.std[k.b2..], q.slow[k.c2..])
            && s.remaining == Left3(q, k, gasLimit)
  {
    var s1, s2, s3;
    k, s1, s2, s3 := TopUpsMove(s0, maxTx, gasLimit, q, a, b, c);
    ThreeExtensions(s0, s1, s2, s3, q, k, maxTx, gasLimit);
  }

  ghost predicate Extending(s0: Popping, s1: Popping, s2: Popping, s3: Popping, q: Queues, k: Cuts, maxTx: int)
    requires Within(q, k)
  {
    && Moved(s0, s1, LaneFast, q.fast[k.a..k.a2], q.fast[k.a2..])
    && Moved(s1, s2, LaneStandard, q.std[k.b..k.b2], q.std[k.b2..])
    && Moved(s2, s3, LaneSlow, q.slow[k.c..k.c2], q.slow[k.c2..])
    && Grows(q.fast, k.a, k.a2, maxTx - |s0.batch|, s0.remaining)
    && Grows(q.std, k.b, k.b2, maxTx - |s1.batch|, s1.remaining)
    && Grows(q.slow, k.c, k.c2, maxTx - |s2.batch|, s2.remaining)
  }

  lemma FitsLess(s: seq<TxMeta>, less: u64, more: u64)
    requires LaneFits(s, more) && less <= more
    ensures LaneFits(s, less)
  {}

  lemma TopUpsMove(s0: Popping, maxTx: int, gasLimit: u64, q: Queues, a: nat, b: nat, c: nat)
    returns (k: Cuts, s1: Popping, s2: Popping, s3: Popping)
    requires a <= |q.fast| && b <= |q.std| && c <= |q.slow|
    requires s0.pool.queues == Queues(q.fast[a..], q.std[b..], q.slow[c..])
    requires s0.remaining <= gasLimit
    requires LaneFits(q.fast, gasLimit) && LaneFits(q.std, gasLimit) && LaneFits(q.slow, gasLimit)
    ensures Within(q, k) && k.a == a && k.b == b && k.c == c
    ensures s3 == TopUp(TopUp(TopUp(s0, LaneFast, maxTx), LaneStandard, maxTx), LaneSlow, maxTx)
    ensures Extending(s0, s1, s2, s3, q, k, maxTx)
  {
    hide Moved, Grows, TopUp, LaneFits;
    var a2, b2, c2;
    FitsLess(q.fast, s0.remaining, gasLimit);
    a2, s1 := TopUpExact(s0, LaneFast, maxTx, q.fast, a);
    AfterMove(s0, s1, LaneFast, q.fast[a..a2], q.fast[a2..]);
    FitsLess(q.std, s1.remaining, gasLimit);
    b2, s2 := TopUpExact(s1, LaneStandard, maxTx, q.std, b);
    AfterMove(s1, s2, LaneStandard, q.std[b..b2], q.std[b2..]);
    FitsLess(q.slow, s2.remaining, gasLimit);
    c2, s3 := TopUpExact(s2, LaneSlow, maxTx, q.slow, c);
    k := Cuts(a, b, c, a2, b2, c2);
  }

  lemma MovesLeave(
    s0: Popping, s1: Popping, s2: Popping, s3: Popping, q: Queues, k: Cuts, maxTx: int, gasLimit: nat)
    requires Within(q, k) && Extending(s0, s1, s2, s3, q, k, maxTx)
    requires |s0.batch| == k.a + k.b + k.c && s0.remaining == Left0(q, k, gasLimit)
    ensures Extensions(q, k, maxTx, gasLimit) && s3.remaining == Left3(q, k, gasLimit)
  {
    hide Grows;
  }

  lemma MovesBatch(s0: Popping, s1: Popping, s2: Popping, s3: Popping, q: Queues, k: Cuts, maxTx: int)
    requires Within(q, k) && Extending(s0, s1, s2, s3, q, k, maxTx)
    requires s0.batch == q.fast[..k.a] + q.std[..k.b] + q.slow[..k.c]
    ensures s3.batch == BatchOf(q, k)
  {
    hide Grows, GasOf;
  }

  lemma ThreeExtensions(
    s0: Popping, s1: Popping, s2: Popping, s3: Popping, q: Queues, k: Cuts, maxTx: int, gasLimit: nat)
    requires Within(q, k) && Extending(s0, s1, s2, s3, q, k, maxTx)
    requires s0.batch == q.fast[..k.a] + q.std[..k.b] + q.slow[..k.c]
    requires s0.pool.queues == Queues(q.fast[k.a..], q.std[k.b..], q.slow[k.c..])
    requires s0.remaining == Left0(q, k, gasLimit)
    ensures Extensions(q, k, maxTx, gasLimit)
    ensures s3.batch == BatchOf(q, k)
    ensures s3.pool.queues == Queues(q.fast[k.a2..], q.std[k.b2..], q.slow[k.c2..])
    ensures s3.remaining == Left3(q, k, gasLimit)
  {
    MovesLeave(s0, s1, s2, s3, q, k, maxTx, gasLimit);
    MovesBatch(s0, s1, s2, s3, q, k, maxTx);
  }

  // ---------- consequences ----------

  /** The batch keeps to its count cap, and gas given out plus gas left is the limit. */
  lemma PopBounds(p: Pool, maxTx: int, gasLimit: u64)
    requires GasFits(p, gasLimit)
    ensures var s := PopBatch(p, maxTx, gasLimit);
            |s.batch| <= Max(maxTx, 0) && GasOf(s.batch) + s.remaining == gasLimit
  {
    var k := PopExact(p, maxTx, gasLimit);
    BatchGas(p.queues, k);
  }

  lemma BatchGas(q: Queues, k: Cuts)
    requires Within(q, k)
    ensures GasOf(BatchOf(q, k)) + Left3(q, k, 0) == 0
  {
    var x, y, z := q.fast[..k.a], q.std[..k.b], q.slow[..k.c];
    var x', y', z' := q.fast[k.a..k.a2], q.std[k.b..k.b2], q.slow[k.c..k.c2];
    GasOfAppend(x, y);
    GasOfAppend(x + y, z);
    GasOfAppend(x + y + z, x');
    GasOfAppend(x + y + z + x', y');
    GasOfAppend(x + y + z + x' + y', z');
  }

  /** What the lane has taken of its share, and what its next entry would need. */
  ghost predicate ShareExhausted(taken: seq<TxMeta>, left: seq<TxMeta>, share: nat) {
    && GasOf(taken) <= share
    && (left != [] ==> GasOf(taken) + left[0].tx.gas > share)
  }

  /**
    * Guaranteed shares: unless the count cap is reached, a lane that still holds entries
    * after phase 1 has used all of its share but less than its head needs.
    */
  lemma SharesGuaranteed(p: Pool, maxTx: int, gasLimit: u64) returns (a: nat, b: nat, c: nat)
    requires GasFits(p, gasLimit) && |Guaranteed(p, maxTx, gasLimit).batch| < maxTx
    ensures var q := p.queues;
            && a <= |q.fast| && b <= |q.std| && c <= |q.slow|
            && Guaranteed(p, maxTx, gasLimit).pool.queues == Queues(q.fast[a..], q.std[b..], q.slow[c..])
            && ShareExhausted(q.fast[..a], q.fast[a..], Share(gasLimit, 4000))
            && ShareExhausted(q.std[..b], q.std[b..], Share(gasLimit, 4000))
            && ShareExhausted(q.slow[..c], q.slow[c..], Share(gasLimit, 2000))
  {
    a, b, c := GuaranteedExact(p, maxTx, gasLimit);
  }

  /**
    * Work conservation: if gas and room are left at the end, the head of every lane that
    * still holds entries needs more gas than is left.
    */
  lemma PopConservesWork(p: Pool, maxTx: int, gasLimit: u64, l: Lane)
    requires GasFits(p, gasLimit)
    ensures var s := PopBatch(p, maxTx, gasLimit);
            var left := s.pool.queues.Of(l);
            s.remaining > 0 && |s.batch| < maxTx && left != [] ==> left[0].tx.gas > s.remaining
  {
    var k := PopExact(p, maxTx, gasLimit);
    CutsConserveWork(p.queues, k, maxTx, gasLimit, l);
  }

  lemma CutsConserveWork(q: Queues, k: Cuts, maxTx: int, gasLimit: nat, l: Lane)
    requires Within(q, k) && Extensions(q, k, maxTx, gasLimit)
    ensures var left := Queues(q.fast[k.a2..], q.std[k.b2..], q.slow[k.c2..]).Of(l);
            Left3(q, k, gasLimit) > 0 && |BatchOf(q, k)| < maxTx && left != [] ==>
              left[0].tx.gas > Left3(q, k, gasLimit)
  {
    hide Grows, GasOf;
    var room := maxTx - k.a - k.b - k.c;
    assert |BatchOf(q, k)| == k.a2 + k.b2 + k.c2;
    match l
    case LaneFast => GrowthStops(q.fast, k.a, k.a2, room, Left0(q, k, gasLimit));
    case LaneStandard => GrowthStops(q.std, k.b, k.b2, room - (k.a2 - k.a), Left1(q, k, gasLimit));
    case LaneSlow =>
      GrowthStops(q.slow, k.c, k.c2, room - (k.a2 - k.a) - (k.b2 - k.b), Left2(q, k, gasLimit));
  }

  lemma GrowthStops(s: seq<TxMeta>, k: nat, k2: nat, room: int, gas: int)
    requires Grows(s, k, k2, room, gas)
    ensures gas > GasOf(s[k..k2]) && room > k2 - k && k2 < |s| ==> s[k2].tx.gas > gas - GasOf(s[k..k2])
  {
    assert s[k..][..k2 - k] == s[k..k2];
    assert s[k..k] == [];
  }
}
