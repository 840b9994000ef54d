/**
  * What executing a block's worth of transactions guarantees, for every pre-state and
  * list.  The inductions run over the loop with the single attempt left abstract; the
  * theorems at the end put the real attempt back.
  */
module BlockProofs {
  import opened Common
  import opened Transactions
  import opened Ledger
  import opened Execution
  import opened TransactionProofs

  // ---------- what the loop needs of one attempt ----------

  function Unindexed(r: Receipt): Receipt {
    r.(txIndex := 0, logs := seq(|r.logs|, k requires 0 <= k < |r.logs| => r.logs[k].(txIndex := 0)))
  }

  ghost predicate SameButIndex(a: Applied, b: Applied) {
    && a.world == b.world
    && (a.Accepted? <==> b.Accepted?)
    && (a.Accepted? ==> Unindexed(a.receipt) == Unindexed(b.receipt))
  }

  ghost predicate IndexBlind(attempt: Attempt) {
    forall w: World, tx: Tx, c: u64, i: nat, j: nat :: SameButIndex(attempt(w, tx, c, i), attempt(w, tx, c, j))
  }

  ghost predicate Labels(attempt: Attempt) {
    forall w: World, tx: Tx, c: u64, i: nat ::
      attempt(w, tx, c, i).Accepted? ==> attempt(w, tx, c, i).receipt.txHash == tx.hash
  }

  ghost predicate MoneyAndGas(tx: Tx, before: World, r: Applied, burnsNothing: bool)
    requires r.Accepted?
  {
    && r.receipt.gasUsed <= tx.gas
    && Total(r.world) <= Total(before)
    && (burnsNothing ==> Total(r.world) == Total(before))
  }

  ghost predicate Nonces(m: Machine, tx: Tx, before: World, after: World) {
    && tx.from.Some?
    && NonceOf(before, tx.from.value) == tx.nonce
    && NonceOf(after, tx.from.value) == tx.nonce + 1
    && (forall a :: m.eoa(a) && a != tx.from.value ==> NonceOf(after, a) == NonceOf(before, a))
  }

  ghost predicate Lawful(m: Machine, attempt: Attempt) {
    forall w: World, tx: Tx, c: u64, i: nat ::
      attempt(w, tx, c, i).Accepted? && KeyHeld(m, [tx]) && WorldOk(m, w) ==>
        && MoneyAndGas(tx, w, attempt(w, tx, c, i), BurnsNothing(m))
        && KeysSurvive(m, w, attempt(w, tx, c, i).world)
        && (tx.nonce + 1 < U64 ==> Nonces(m, tx, w, attempt(w, tx, c, i).world))
  }

  // ---------- partition ----------

  ghost predicate Aligned(included: seq<Tx>, receipts: seq<Receipt>) {
    && |included| == |receipts|
    && forall k :: 0 <= k < |included| ==> receipts[k].txHash == included[k].hash
  }

  lemma HeadLabelled(attempt: Attempt, limit: u64, w: World, txs: seq<Tx>, index: nat, c: u64)
    requires Labels(attempt) && txs != []
    ensures HeadIncluded(attempt, limit, w, txs, index, c) ==>
              attempt(w, txs[0], c, index).receipt.txHash == txs[0].hash
  {}

  ghost predicate Partitioned(r: BlockRun, txs: seq<Tx>) {
    Aligned(r.included, r.receipts) && multiset(r.included) + multiset(r.skipped) == multiset(txs)
  }

  lemma IncludePartitions(rest: BlockRun, txs: seq<Tx>, receipt: Receipt)
    requires txs != [] && Partitioned(rest, txs[1..]) && receipt.txHash == txs[0].hash
    ensures Partitioned(Include(txs[0], receipt, rest), txs)
  {
    assert txs == [txs[0]] + txs[1..];
  }

  lemma SkipPartitions(rest: BlockRun, txs: seq<Tx>)
    requires txs != [] && Partitioned(rest, txs[1..])
    ensures Partitioned(Skip(txs[0], rest), txs)
  {
    assert txs == [txs[0]] + txs[1..];
  }

  lemma {:induction false} LoopPartitions(attempt: Attempt, limit: u64, w: World, txs: seq<Tx>, index: nat, c: u64)
    requires Labels(attempt)
    ensures Partitioned(Loop(attempt, limit, w, txs, index, c), txs)
    decreases |txs|
  {
    if txs != [] {
      hide Labels, HeadIncluded, Partitioned;
      LoopStep(attempt, limit, w, txs, index, c);
      HeadLabelled(attempt, limit, w, txs, index, c);
      var (w', total) := AfterHead(attempt, limit, w, txs, index, c);
      LoopPartitions(attempt, limit, w', txs[1..], index + 1, total);
      var rest := Loop(attempt, limit, w', txs[1..], index + 1, total);
      var a := attempt(w, txs[0], c, index);
      if HeadIncluded(attempt, limit, w, txs, index, c) {
        IncludePartitions(rest, txs, a.receipt.(cumulativeGasUsed := total));
      } else {
        SkipPartitions(rest, txs);
      }
    }
  }

  ghost predicate HeadIncluded(attempt: Attempt, limit: u64, w: World, txs: seq<Tx>, index: nat, c: u64)
    requires txs != []
  {
    Wrap64(c + txs[0].gas) <= limit && attempt(w, txs[0], c, index).Accepted?
  }

  /** Where the rest of the list starts once the first transaction has been dealt with. */
  ghost function AfterHead(attempt: Attempt, limit: u64, w: World, txs: seq<Tx>, index: nat, c: u64): (World, u64)
    requires txs != []
  {
    if HeadIncluded(attempt, limit, w, txs, index, c) then
      var r := attempt(w, txs[0], c, index);
      (r.world, Wrap64(c + r.receipt.gasUsed))
    else (w, c)
  }

  lemma LoopStep(attempt: Attempt, limit: u64, w: World, txs: seq<Tx>, index: nat, c: u64)
    requires txs != []
    ensures var (w', total) := AfterHead(attempt, limit, w, txs, index, c);
            Loop(attempt, limit, w, txs, index, c) ==
            var rest := Loop(attempt, limit, w', txs[1..], index + 1, total);
            if HeadIncluded(attempt, limit, w, txs, index, c) then
              Include(txs[0], attempt(w, txs[0], c, index).receipt.(cumulativeGasUsed := total), rest)
            else Skip(txs[0], rest)
  {}

  // ---------- positions ----------

  /** An attempt writes its position into the receipt and into every log. */
  ghost predicate PlacedAt(r: Receipt, i: nat) {
    r.txIndex == i && forall l :: l in r.logs ==> l.txIndex == i
  }

  ghost predicate Places(attempt: Attempt) {
    forall w: World, tx: Tx, c: u64, i: nat ::
      attempt(w, tx, c, i).Accepted? ==> PlacedAt(attempt(w, tx, c, i).receipt, i)
  }

  lemma TailOfPrefix(txs: seq<Tx>, p: nat)
    requires 0 < p <= |txs|
    ensures txs[..p][0] == txs[0] && txs[..p][1..] == txs[1..][..p - 1]
  {}

  /** What happens to the head does not depend on what follows it. */
  lemma PrefixHead(attempt: Attempt, limit: u64, w: World, txs: seq<Tx>, index: nat, c: u64, p: nat)
    requires 0 < p <= |txs|
    ensures HeadIncluded(attempt, limit, w, txs[..p], index, c) == HeadIncluded(attempt, limit, w, txs, index, c)
    ensures AfterHead(attempt, limit, w, txs[..p], index, c) == AfterHead(attempt, limit, w, txs, index, c)
  {}

  /** The loop over a non-empty prefix starts with the same head. */
  lemma PrefixStep(attempt: Attempt, limit: u64, w: World, txs: seq<Tx>, index: nat, c: u64, p: nat)
    requires 0 < p <= |txs|
    ensures var (w', total) := AfterHead(attempt, limit, w, txs, index, c);
            var rest := Loop(attempt, limit, w', txs[1..][..p - 1], index + 1, total);
            var r := Loop(attempt, limit, w, txs[..p], index, c);
            && |r.included| == |rest.included| + (if HeadIncluded(attempt, limit, w, txs, index, c) then 1 else 0)
            && |r.skipped| == |rest.skipped| + (if HeadIncluded(attempt, limit, w, txs, index, c) then 0 else 1)
  {
    hide Loop, HeadIncluded, AfterHead;
    TailOfPrefix(txs, p);
    PrefixHead(attempt, limit, w, txs, index, c, p);
    LoopStep(attempt, limit, w, txs[..p], index, c);
  }

  /** The receipt's transaction stood at the position it names, with k included and the rest skipped before it. */
  ghost predicate Positioned(
    attempt: Attempt, limit: u64, w: World, txs: seq<Tx>, index: nat, c: u64, receipt: Receipt, k: nat)
  {
    && index <= receipt.txIndex < index + |txs|
    && PlacedAt(receipt, receipt.txIndex)
    && var before := Loop(attempt, limit, w, txs[..receipt.txIndex - index], index, c);
       |before.included| == k && |before.skipped| == receipt.txIndex - index - k
  }

  lemma PositionedBehind(
    attempt: Attempt, limit: u64, w: World, txs: seq<Tx>, index: nat, c: u64, receipt: Receipt, k: nat)
    requires txs != []
    requires var (w', total) := AfterHead(attempt, limit, w, txs, index, c);
             Positioned(attempt, limit, w', txs[1..], index + 1, total, receipt, k)
    ensures Positioned(attempt, limit, w, txs, index, c, receipt,
                       if HeadIncluded(attempt, limit, w, txs, index, c) then k + 1 else k)
  {
    hide Loop, HeadIncluded, AfterHead, PlacedAt;
    PrefixStep(attempt, limit, w, txs, index, c, receipt.txIndex - index);
  }

  lemma PositionedFirst(attempt: Attempt, limit: u64, w: World, txs: seq<Tx>, index: nat, c: u64, receipt: Receipt)
    requires txs != [] && PlacedAt(receipt, index)
    ensures Positioned(attempt, limit, w, txs, index, c, receipt, 0)
  {
    assert txs[..0] == [];
  }

  lemma {:induction false} LoopPositions(
    attempt: Attempt, limit: u64, w: World, txs: seq<Tx>, index: nat, c: u64, k: nat)
    requires Places(attempt) && k < |Loop(attempt, limit, w, txs, index, c).receipts|
    ensures Positioned(attempt, limit, w, txs, index, c, Loop(attempt, limit, w, txs, index, c).receipts[k], k)
    decreases |txs|
  {
    hide Positioned, PlacedAt;
    LoopStep(attempt, limit, w, txs, index, c);
    var (w', total) := AfterHead(attempt, limit, w, txs, index, c);
    var rest := Loop(attempt, limit, w', txs[1..], index + 1, total);
    if !HeadIncluded(attempt, limit, w, txs, index, c) {
      LoopPositions(attempt, limit, w', txs[1..], index + 1, total, k);
      PositionedBehind(attempt, limit, w, txs, index, c, rest.receipts[k], k);
    } else if k == 0 {
      HeadPlaced(attempt, w, txs[0], c, index, total);
      PositionedFirst(attempt, limit, w, txs, index, c, attempt(w, txs[0], c, index).receipt.(cumulativeGasUsed := total));
    } else {
      LoopPositions(attempt, limit, w', txs[1..], index + 1, total, k - 1);
      PositionedBehind(attempt, limit, w, txs, index, c, rest.receipts[k - 1], k - 1);
    }
  }

  lemma HeadPlaced(attempt: Attempt, w: World, tx: Tx, c: u64, i: nat, total: u64)
    requires Places(attempt) && attempt(w, tx, c, i).Accepted?
    ensures PlacedAt(attempt(w, tx, c, i).receipt.(cumulativeGasUsed := total), i)
  {}

  // ---------- one more transaction ----------

  /** A run with one more transaction offered: skipped if its gas does not fit or the attempt fails, included otherwise. */
  function Extended(attempt: Attempt, limit: u64, r: BlockRun, tx: Tx, index: nat): BlockRun {
    if (r.gas + tx.gas) % U64 > limit then r.(skipped := r.skipped + [tx])
    else
      match attempt(r.world, tx, r.gas, index)
      case Rejected(_, _) => r.(skipped := r.skipped + [tx])
      case Accepted(after, receipt) =>
        var gas := (r.gas + receipt.gasUsed) % U64;
        BlockRun(after, r.included + [tx], r.receipts + [receipt.(cumulativeGasUsed := gas)], r.skipped, gas)
  }

  lemma ExtendedBehind(attempt: Attempt, limit: u64, r: BlockRun, head: Tx, receipt: Receipt, tx: Tx, index: nat)
    ensures Extended(attempt, limit, Include(head, receipt, r), tx, index) ==
            Include(head, receipt, Extended(attempt, limit, r, tx, index))
    ensures Extended(attempt, limit, Skip(head, r), tx, index) == Skip(head, Extended(attempt, limit, r, tx, index))
  {
    assert [head] + (r.skipped + [tx]) == ([head] + r.skipped) + [tx];
    assert [head] + (r.included + [tx]) == ([head] + r.included) + [tx];
    var a := attempt(r.world, tx, r.gas, index);
    if a.Accepted? {
      var last := a.receipt.(cumulativeGasUsed := (r.gas + a.receipt.gasUsed) % U64);
      assert [receipt] + (r.receipts + [last]) == ([receipt] + r.receipts) + [last];
    }
  }

  lemma LoopOne(attempt: Attempt, limit: u64, w: World, tx: Tx, index: nat, c: u64)
    ensures Loop(attempt, limit, w, [], index, c) == BlockRun(w, [], [], [], c)
    ensures Loop(attempt, limit, w, [tx], index, c) == Extended(attempt, limit, BlockRun(w, [], [], [], c), tx, index)
  {
    assert [tx][1..] == [];
  }

  lemma {:induction false} LoopSnoc(attempt: Attempt, limit: u64, w: World, txs: seq<Tx>, tx: Tx, index: nat, c: u64)
    ensures Loop(attempt, limit, w, txs + [tx], index, c) ==
            Extended(attempt, limit, Loop(attempt, limit, w, txs, index, c), tx, index + |txs|)
    decreases |txs|
  {
    hide Loop, Extended, Include, Skip, HeadIncluded, AfterHead;
    if txs == [] {
      assert [] + [tx] == [tx];
      LoopOne(attempt, limit, w, tx, index, c);
    } else {
      var longer := txs + [tx];
      assert longer[0] == txs[0] && longer[1..] == txs[1..] + [tx] && longer[..|txs|] == txs;
      PrefixHead(attempt, limit, w, longer, index, c, |txs|);
      var (w', total) := AfterHead(attempt, limit, w, txs, index, c);
      LoopStep(attempt, limit, w, txs, index, c);
      LoopStep(attempt, limit, w, longer, index, c);
      LoopSnoc(attempt, limit, w', txs[1..], tx, index + 1, total);
      var rest := Loop(attempt, limit, w', txs[1..], index + 1, total);
      var receipt := if HeadIncluded(attempt, limit, w, txs, index, c) then HeadReceipt(attempt, limit, w, txs, index, c) else NO_RECEIPT;
      ExtendedBehind(attempt, limit, rest, txs[0], receipt, tx, index + |txs|);
    }
  }

  ghost function HeadReceipt(attempt: Attempt, limit: u64, w: World, txs: seq<Tx>, index: nat, c: u64): Receipt
    requires txs != [] && HeadIncluded(attempt, limit, w, txs, index, c)
  {
    attempt(w, txs[0], c, index).receipt.(cumulativeGasUsed := AfterHead(attempt, limit, w, txs, index, c).1)
  }

  const NO_RECEIPT: Receipt := Receipt(ZERO_HASH, 0, 0, 0, ZERO_HASH, 0, false, None, [])

  // ---------- replay ----------

  ghost predicate SameUpToIndex(a: seq<Receipt>, b: seq<Receipt>) {
    && |a| == |b|
    && forall k :: 0 <= k < |a| ==> Unindexed(a[k]) == Unindexed(b[k])
  }

  lemma {:induction false} LoopReplays(
    attempt: Attempt, limit: u64, w: World, txs: seq<Tx>, index: nat, c: u64, index': nat)
    requires IndexBlind(attempt)
    ensures var r := Loop(attempt, limit, w, txs, index, c);
            var r' := Loop(attempt, limit, w, r.included, index', c);
            && r'.world == r.world && r'.gas == r.gas
            && r'.included == r.included && r'.skipped == []
            && SameUpToIndex(r'.receipts, r.receipts)
    decreases |txs|
  {
    if txs != [] {
      var (w', total) := AfterHead(attempt, limit, w, txs, index, c);
      LoopStep(attempt, limit, w, txs, index, c);
      if HeadIncluded(attempt, limit, w, txs, index, c) {
        LoopReplays(attempt, limit, w', txs[1..], index + 1, total, index' + 1);
        ReplayHead(attempt, limit, w, txs, index, c, index');
      } else {
        LoopReplays(attempt, limit, w, txs[1..], index + 1, c, index');
      }
    }
  }

  /** The included list starts with the head, and the head is included again at any position. */
  lemma ReplayHead(attempt: Attempt, limit: u64, w: World, txs: seq<Tx>, index: nat, c: u64, index': nat)
    requires IndexBlind(attempt) && txs != [] && HeadIncluded(attempt, limit, w, txs, index, c)
    ensures var (w', total) := AfterHead(attempt, limit, w, txs, index, c);
            var rest := Loop(attempt, limit, w', txs[1..], index + 1, total);
            var included := [txs[0]] + rest.included;
            var a := attempt(w, txs[0], c, index).receipt.(cumulativeGasUsed := total);
            var b := attempt(w, txs[0], c, index').receipt.(cumulativeGasUsed := total);
            && Unindexed(a) == Unindexed(b)
            && Loop(attempt, limit, w, included, index', c) ==
               Include(txs[0], b, Loop(attempt, limit, w', rest.included, index' + 1, total))
  {
    var (w', total) := AfterHead(attempt, limit, w, txs, index, c);
    var rest := Loop(attempt, limit, w', txs[1..], index + 1, total);
    var included := [txs[0]] + rest.included;
    assert included[1..] == rest.included;
    var a, b := attempt(w, txs[0], c, index), attempt(w, txs[0], c, index');
    assert SameButIndex(a, b);
    StampsOnly(a.receipt, b.receipt, total);
    assert HeadIncluded(attempt, limit, w, included, index', c);
    assert AfterHead(attempt, limit, w, included, index', c) == (w', total);
    LoopStep(attempt, limit, w, included, index', c);
  }

  lemma StampsOnly(a: Receipt, b: Receipt, total: u64)
    requires Unindexed(a) == Unindexed(b)
    ensures a.gasUsed == b.gasUsed
    ensures Unindexed(a.(cumulativeGasUsed := total)) == Unindexed(b.(cumulativeGasUsed := total))
  {
    assert Unindexed(a).gasUsed == Unindexed(b).gasUsed;
    assert Unindexed(a.(cumulativeGasUsed := total)) == Unindexed(a).(cumulativeGasUsed := total);
    assert Unindexed(b.(cumulativeGasUsed := total)) == Unindexed(b).(cumulativeGasUsed := total);
  }

  // ---------- money ----------

  lemma {:induction false} LoopConserves(
    m: Machine, attempt: Attempt, limit: u64, w: World, txs: seq<Tx>, index: nat, c: u64)
    requires Lawful(m, attempt) && KeyHeld(m, txs) && WorldOk(m, w)
    ensures var r := Loop(attempt, limit, w, txs, index, c);
            && Total(r.world) <= Total(w) && (BurnsNothing(m) ==> Total(r.world) == Total(w))
            && KeysSurvive(m, w, r.world)
    decreases |txs|
  {
    if txs != [] {
      var (w', total) := AfterHead(attempt, limit, w, txs, index, c);
      assert txs[0] in txs && KeyHeld(m, [txs[0]]);
      LoopConserves(m, attempt, limit, w', txs[1..], index + 1, total);
    }
  }

  // ---------- gas ----------

  function GasSum(rs: seq<Receipt>): nat {
    if rs == [] then 0 else rs[0].gasUsed + GasSum(rs[1..])
  }

  function OfferedGas(txs: seq<Tx>): nat {
    if txs == [] then 0 else txs[0].gas + OfferedGas(txs[1..])
  }

  /** No running total can wrap: a condition on the transactions alone. */
  predicate GasFits(txs: seq<Tx>, limit: u64) {
    forall tx :: tx in txs ==> tx.gas + limit < U64
  }

  ghost predicate RunningTotals(rs: seq<Receipt>, from: nat) {
    forall k :: 0 <= k < |rs| ==> rs[k].cumulativeGasUsed == from + GasSum(rs[..k + 1])
  }

  /** Gas used since `from`: the sum of the receipts', within the limit and within what was offered. */
  ghost predicate GasAccounted(r: BlockRun, from: nat, limit: u64, txs: seq<Tx>) {
    && r.gas == from + GasSum(r.receipts) <= limit
    && RunningTotals(r.receipts, from)
    && GasSum(r.receipts) <= OfferedGas(txs)
  }

  lemma IncludeAccounts(tx: Tx, receipt: Receipt, rest: BlockRun, from: nat, limit: u64, txs: seq<Tx>)
    requires txs != [] && txs[0] == tx && receipt.gasUsed <= tx.gas
    requires receipt.cumulativeGasUsed == from + receipt.gasUsed
    requires GasAccounted(rest, from + receipt.gasUsed, limit, txs[1..])
    ensures GasAccounted(Include(tx, receipt, rest), from, limit, txs)
  {
    TotalsPrepend(receipt, rest.receipts, from);
  }

  lemma SkipAccounts(tx: Tx, rest: BlockRun, from: nat, limit: u64, txs: seq<Tx>)
    requires txs != [] && GasAccounted(rest, from, limit, txs[1..])
    ensures GasAccounted(Skip(tx, rest), from, limit, txs)
  {}

  lemma HeadGas(m: Machine, attempt: Attempt, limit: u64, w: World, txs: seq<Tx>, index: nat, c: u64)
    requires Lawful(m, attempt) && KeyHeld(m, txs) && WorldOk(m, w)
    requires GasFits(txs, limit) && c <= limit && txs != []
    ensures KeyHeld(m, txs[1..]) && GasFits(txs[1..], limit)
    ensures var (w', total) := AfterHead(attempt, limit, w, txs, index, c);
            && WorldOk(m, w') && total <= limit
            && (!HeadIncluded(attempt, limit, w, txs, index, c) ==> w' == w && total == c)
    ensures HeadIncluded(attempt, limit, w, txs, index, c) ==>
              var (w', total) := AfterHead(attempt, limit, w, txs, index, c);
              var receipt := attempt(w, txs[0], c, index).receipt;
              receipt.gasUsed <= txs[0].gas && total == c + receipt.gasUsed
  {
    assert txs[0] in txs && KeyHeld(m, [txs[0]]);
    WrapSmall(c + txs[0].gas);
    if HeadIncluded(attempt, limit, w, txs, index, c) {
      assert MoneyAndGas(txs[0], w, attempt(w, txs[0], c, index), BurnsNothing(m));
      WrapSmall(c + attempt(w, txs[0], c, index).receipt.gasUsed);
    }
  }

  lemma {:induction false} LoopGas(
    m: Machine, attempt: Attempt, limit: u64, w: World, txs: seq<Tx>, index: nat, c: u64)
    requires Lawful(m, attempt) && KeyHeld(m, txs) && WorldOk(m, w)
    requires GasFits(txs, limit) && c <= limit
    ensures GasAccounted(Loop(attempt, limit, w, txs, index, c), c, limit, txs)
    decreases |txs|
  {
    if txs != [] {
      hide Lawful, KeyHeld, GasFits, GasAccounted, HeadIncluded;
      HeadGas(m, attempt, limit, w, txs, index, c);
      LoopStep(attempt, limit, w, txs, index, c);
      var (w', total) := AfterHead(attempt, limit, w, txs, index, c);
      LoopGas(m, attempt, limit, w', txs[1..], index + 1, total);
      var rest := Loop(attempt, limit, w', txs[1..], index + 1, total);
      if HeadIncluded(attempt, limit, w, txs, index, c) {
        var receipt := attempt(w, txs[0], c, index).receipt;
        IncludeAccounts(txs[0], receipt.(cumulativeGasUsed := total), rest, c, limit, txs);
      } else {
        SkipAccounts(txs[0], rest, c, limit, txs);
      }
    }
  }

  lemma TotalsPrepend(r: Receipt, rs: seq<Receipt>, from: nat)
    requires r.cumulativeGasUsed == from + r.gasUsed
    requires RunningTotals(rs, from + r.gasUsed)
    ensures RunningTotals([r] + rs, from)
    ensures GasSum([r] + rs) == r.gasUsed + GasSum(rs)
  {
    forall k | 0 <= k < |rs| + 1
      ensures ([r] + rs)[k].cumulativeGasUsed == from + GasSum(([r] + rs)[..k + 1])
    {
      assert ([r] + rs)[..k + 1] == [r] + rs[..k];
    }
  }

  // ---------- nonces ----------

  function NoncesOf(s: Address, txs: seq<Tx>): seq<u64> {
    if txs == [] then []
    else if txs[0].from == Some(s) then [txs[0].nonce] + NoncesOf(s, txs[1..])
    else NoncesOf(s, txs[1..])
  }

  ghost predicate CountUpFrom(first: nat, ns: seq<u64>) {
    forall k :: 0 <= k < |ns| ==> ns[k] == first + k
  }

  predicate NoncesFit(txs: seq<Tx>) {
    forall tx :: tx in txs ==> tx.nonce + 1 < U64
  }

  /** From nonce n on, the included nonces of s count up, and its account ends just past them. */
  ghost predicate NoncesCounted(r: BlockRun, s: Address, n: nat) {
    CountUpFrom(n, NoncesOf(s, r.included)) && NonceOf(r.world, s) == n + |NoncesOf(s, r.included)|
  }

  lemma IncludeCounts(tx: Tx, receipt: Receipt, rest: BlockRun, s: Address, n: nat)
    requires tx.from == Some(s) ==> tx.nonce == n
    requires NoncesCounted(rest, s, if tx.from == Some(s) then n + 1 else n)
    ensures NoncesCounted(Include(tx, receipt, rest), s, n)
  {
    assert ([tx] + rest.included)[1..] == rest.included;
  }

  lemma HeadNonces(
    m: Machine, attempt: Attempt, limit: u64, w: World, txs: seq<Tx>, index: nat, c: u64, s: Address)
    requires Lawful(m, attempt) && KeyHeld(m, txs) && WorldOk(m, w)
    requires NoncesFit(txs) && m.eoa(s) && txs != []
    ensures KeyHeld(m, txs[1..]) && NoncesFit(txs[1..])
    ensures var (w', total) := AfterHead(attempt, limit, w, txs, index, c);
            && WorldOk(m, w')
            && (if HeadIncluded(attempt, limit, w, txs, index, c) then
                  && (txs[0].from == Some(s) ==> txs[0].nonce == NonceOf(w, s))
                  && NonceOf(w', s) == (if txs[0].from == Some(s) then NonceOf(w, s) + 1 else NonceOf(w, s))
                else w' == w && total == c)
  {
    assert txs[0] in txs && KeyHeld(m, [txs[0]]);
    if HeadIncluded(attempt, limit, w, txs, index, c) {
      assert MoneyAndGas(txs[0], w, attempt(w, txs[0], c, index), BurnsNothing(m));
      assert Nonces(m, txs[0], w, attempt(w, txs[0], c, index).world);
    }
  }

  lemma {:induction false} LoopNonces(
    m: Machine, attempt: Attempt, limit: u64, w: World, txs: seq<Tx>, index: nat, c: u64, s: Address)
    requires Lawful(m, attempt) && KeyHeld(m, txs) && WorldOk(m, w)
    requires NoncesFit(txs) && m.eoa(s)
    ensures NoncesCounted(Loop(attempt, limit, w, txs, index, c), s, NonceOf(w, s))
    decreases |txs|
  {
    if txs != [] {
      hide Lawful, KeyHeld, NoncesFit, HeadIncluded, NonceOf;
      HeadNonces(m, attempt, limit, w, txs, index, c, s);
      LoopStep(attempt, limit, w, txs, index, c);
      var (w', total) := AfterHead(attempt, limit, w, txs, index, c);
      LoopNonces(m, attempt, limit, w', txs[1..], index + 1, total, s);
      var rest := Loop(attempt, limit, w', txs[1..], index + 1, total);
      if HeadIncluded(attempt, limit, w, txs, index, c) {
        var receipt := attempt(w, txs[0], c, index).receipt;
        IncludeCounts(txs[0], receipt.(cumulativeGasUsed := total), rest, s, NonceOf(w, s));
      }
    }
  }

  lemma {:induction false} NoncesOfAppend(s: Address, a: seq<Tx>, b: seq<Tx>)
    ensures NoncesOf(s, a + b) == NoncesOf(s, a) + NoncesOf(s, b)
  {
    if a == [] {
      assert a + b == b;
    } else {
      NoncesOfAppend(s, a[1..], b);
      assert (a + b)[1..] == a[1..] + b;
    }
  }

  lemma NonceListed(s: Address, txs: seq<Tx>, k: nat)
    requires k < |txs| && txs[k].from == Some(s)
    ensures |NoncesOf(s, txs[..k])| < |NoncesOf(s, txs)|
    ensures NoncesOf(s, txs)[|NoncesOf(s, txs[..k])|] == txs[k].nonce
  {
    assert txs == txs[..k] + txs[k..];
    NoncesOfAppend(s, txs[..k], txs[k..]);
  }

  /** Counting up means no (sender, nonce) pair occurs twice. */
  lemma CountUpIsOnce(s: Address, first: nat, txs: seq<Tx>, i: nat, j: nat)
    requires CountUpFrom(first, NoncesOf(s, txs))
    requires i < j < |txs| && txs[i].from == Some(s) == txs[j].from
    ensures txs[i].nonce < txs[j].nonce
  {
    NonceListed(s, txs, i);
    NonceListed(s, txs, j);
    NonceListed(s, txs[..j], i);
    assert txs[..j][..i] == txs[..i];
  }

  // ---------- the real attempt ----------

  lemma AttemptLabels(m: Machine, ctx: BlockCtx)
    ensures Labels(Attempting(m, ctx))
  {}

  lemma AttemptPlaces(m: Machine, ctx: BlockCtx)
    ensures Places(Attempting(m, ctx))
  {}

  lemma AttemptIndexBlind(m: Machine, ctx: BlockCtx)
    ensures IndexBlind(Attempting(m, ctx))
  {
    forall w: World, tx: Tx, c: u64, i: nat, j: nat
      ensures SameButIndex(Attempting(m, ctx)(w, tx, c, i), Attempting(m, ctx)(w, tx, c, j))
    {
      IndexOnlyStamps(m, ctx, w, tx, c, i, j);
    }
  }

  lemma IndexOnlyStamps(m: Machine, ctx: BlockCtx, w: World, tx: Tx, c: u64, i: nat, j: nat)
    ensures SameButIndex(ApplyTx(m, ctx, w, tx, c, i), ApplyTx(m, ctx, w, tx, c, j))
  {
    var a, b := ApplyTx(m, ctx, w, tx, c, i), ApplyTx(m, ctx, w, tx, c, j);
    if a.Accepted? {
      assert Unindexed(a.receipt).logs == Unindexed(b.receipt).logs;
    }
  }

  lemma AttemptLawful(m: Machine, ctx: BlockCtx)
    requires WellBehaved(m)
    ensures Lawful(m, Attempting(m, ctx))
  {
    forall w: World, tx: Tx, c: u64, i: nat |
      Attempting(m, ctx)(w, tx, c, i).Accepted? && KeyHeld(m, [tx]) && WorldOk(m, w)
      ensures MoneyAndGas(tx, w, Attempting(m, ctx)(w, tx, c, i), BurnsNothing(m))
      ensures KeysSurvive(m, w, Attempting(m, ctx)(w, tx, c, i).world)
      ensures tx.nonce + 1 < U64 ==> Nonces(m, tx, w, Attempting(m, ctx)(w, tx, c, i).world)
    {
      AcceptedConserves(m, ctx, w, tx, c, i);
      AcceptedSpares(m, ctx, w, tx, c, i);
      if tx.nonce + 1 < U64 {
        AcceptedNonces(m, ctx, w, tx, c, i);
      }
    }
  }

  // ---------- the theorems about a block ----------

  /**
    * What one more transaction at the end of the list does, with nothing before it changed:
    * it is skipped exactly if its gas, added to the gas used so far (in 64 bits), exceeds the
    * limit, or if the attempt on the state reached is rejected; otherwise state, receipt and
    * gas are the attempt's.
    */
  lemma BlockSnoc(m: Machine, ctx: BlockCtx, w: World, txs: seq<Tx>, tx: Tx)
    ensures var r, longer := Execute(m, ctx, w, txs), Execute(m, ctx, w, txs + [tx]);
            var a := ApplyTx(m, ctx, r.world, tx, r.gas, |txs|);
            if (r.gas + tx.gas) % U64 > ctx.gasLimit || a.Rejected? then longer == r.(skipped := r.skipped + [tx])
            else
              var gas := (r.gas + a.receipt.gasUsed) % U64;
              longer == BlockRun(
                a.world, r.included + [tx], r.receipts + [a.receipt.(cumulativeGasUsed := gas)], r.skipped, gas)
    ensures Execute(m, ctx, w, []) == BlockRun(w, [], [], [], 0)
  {
    hide ApplyTx;
    LoopSnoc(Attempting(m, ctx), ctx.gasLimit, w, txs, tx, 0, 0);
  }

  /** Every transaction offered is included, with its own receipt, or skipped: none is lost or invented. */
  lemma BlockPartitions(m: Machine, ctx: BlockCtx, w: World, txs: seq<Tx>)
    ensures var r := Execute(m, ctx, w, txs);
            && Aligned(r.included, r.receipts)
            && multiset(r.included) + multiset(r.skipped) == multiset(txs)
  {
    AttemptLabels(m, ctx);
    LoopPartitions(Attempting(m, ctx), ctx.gasLimit, w, txs, 0, 0);
  }

  /**
    * A receipt as the executor writes it, and each of its logs, names the position its
    * transaction was offered at: its own position plus the number skipped before it.
    */
  lemma BlockPositions(m: Machine, ctx: BlockCtx, w: World, txs: seq<Tx>, k: nat)
    requires k < |Execute(m, ctx, w, txs).receipts|
    ensures var receipt := Execute(m, ctx, w, txs).receipts[k];
            && receipt.txIndex < |txs|
            && receipt.txIndex == k + |Execute(m, ctx, w, txs[..receipt.txIndex]).skipped|
            && PlacedAt(receipt, receipt.txIndex)
  {
    AttemptPlaces(m, ctx);
    LoopPositions(Attempting(m, ctx), ctx.gasLimit, w, txs, 0, 0, k);
  }

  /**
    * Replay equivalence: running only what was included skips nothing and reaches the
    * same state, the same gas, and the same receipts up to transaction index.  Skipped
    * transactions leave no trace, including those that failed after paying for gas.
    */
  lemma BlockReplays(m: Machine, ctx: BlockCtx, w: World, txs: seq<Tx>)
    ensures var r := Execute(m, ctx, w, txs);
            var r' := Execute(m, ctx, w, r.included);
            && r'.world == r.world && r'.gas == r.gas
            && r'.included == r.included && r'.skipped == []
            && SameUpToIndex(r'.receipts, r.receipts)
  {
    AttemptIndexBlind(m, ctx);
    LoopReplays(Attempting(m, ctx), ctx.gasLimit, w, txs, 0, 0, 0);
  }

  /** A block creates no money, and destroys none unless the EVM does; no key-held account self-destructs in it. */
  lemma BlockConserves(m: Machine, ctx: BlockCtx, w: World, txs: seq<Tx>)
    requires WellBehaved(m) && KeyHeld(m, txs) && WorldOk(m, w)
    ensures var r := Execute(m, ctx, w, txs);
            && Total(r.world) <= Total(w) && (BurnsNothing(m) ==> Total(r.world) == Total(w))
            && KeysSurvive(m, w, r.world)
  {
    AttemptLawful(m, ctx);
    LoopConserves(m, Attempting(m, ctx), ctx.gasLimit, w, txs, 0, 0);
  }

  /**
    * With gas that fits, the block's gas is the sum of its receipts', each cumulative
    * figure is a prefix sum, and the total stays within the block limit and within what
    * the transactions offered.
    */
  lemma BlockGas(m: Machine, ctx: BlockCtx, w: World, txs: seq<Tx>)
    requires WellBehaved(m) && KeyHeld(m, txs) && WorldOk(m, w)
    requires GasFits(txs, ctx.gasLimit)
    ensures var r := Execute(m, ctx, w, txs);
            && r.gas == GasSum(r.receipts) <= ctx.gasLimit
            && RunningTotals(r.receipts, 0)
            && r.gas <= OfferedGas(txs)
  {
    AttemptLawful(m, ctx);
    LoopGas(m, Attempting(m, ctx), ctx.gasLimit, w, txs, 0, 0);
  }

  /**
    * Within a block every sender's executed nonces count up by one from the nonce its
    * account had before, and the account ends just past the last of them.
    */
  lemma BlockNonces(m: Machine, ctx: BlockCtx, w: World, txs: seq<Tx>, s: Address)
    requires WellBehaved(m) && KeyHeld(m, txs) && WorldOk(m, w)
    requires NoncesFit(txs) && m.eoa(s)
    ensures var r := Execute(m, ctx, w, txs);
            && CountUpFrom(NonceOf(w, s), NoncesOf(s, r.included))
            && NonceOf(r.world, s) == NonceOf(w, s) + |NoncesOf(s, r.included)|
  {
    AttemptLawful(m, ctx);
    LoopNonces(m, Attempting(m, ctx), ctx.gasLimit, w, txs, 0, 0, s);
  }
}
