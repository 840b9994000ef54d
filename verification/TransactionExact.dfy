/**
  * One transaction, exactly: which attempts are accepted and why the others are not, the one
  * call the EVM receives, and every field of the state and the receipt that result.
  */
module TransactionExact {
  import opened Common
  import opened Transactions
  import opened Ledger
  import opened Execution
  import opened TransactionProofs

  /** The state in which the EVM runs: gas paid for, and for a message call the nonce taken. */
  function Paid(w: World, s: Address, tx: Tx): World
    requires tx.gas * tx.gasPrice <= BalanceOf(w, s)
  {
    w.(balance := w.balance[s := BalanceOf(w, s) - tx.gas * tx.gasPrice],
       nonce := if tx.to.Some? then w.nonce[s := if tx.nonce + 1 < U64 then tx.nonce + 1 else 0] else w.nonce)
  }

  /** The one call a transaction stands for: its own recipient, data, value and price, and the gas its intrinsic cost leaves. */
  function OwnCall(tx: Tx, s: Address, intrinsic: u64): Call
    requires intrinsic <= tx.gas
  {
    Call(s, tx.to, tx.data, tx.gas - intrinsic, tx.value, tx.gasPrice)
  }

  predicate Affordable(w: World, tx: Tx) {
    tx.from.Some? && tx.gas * tx.gasPrice + tx.value <= BalanceOf(w, tx.from.value)
  }

  predicate GasCovers(m: Machine, tx: Tx) {
    m.intrinsicGas(tx).Some? && m.intrinsicGas(tx).value <= tx.gas
  }

  predicate Acceptable(m: Machine, w: World, tx: Tx) {
    && tx.from.Some? && tx.nonce == NonceOf(w, tx.from.value)
    && Affordable(w, tx) && GasCovers(m, tx)
  }

  lemma SubtractedIs(w: World, a: Address, x: nat)
    requires Total(w) < U256 && x <= BalanceOf(w, a)
    ensures SubBalance(w, a, x) == SetBalance(w, a, BalanceOf(w, a) - x)
  {
    BalanceWithinTotal(w, a);
    Wrap256Small(x);
    Wrap256Small(BalanceOf(w, a) - x);
  }

  lemma NextNonceIs(n: u64)
    ensures Wrap64(n + 1) == if n + 1 < U64 then n + 1 else 0
  {
    if n + 1 < U64 {
      WrapSmall(n + 1);
    }
  }

  lemma PaidIsBought(w: World, tx: Tx)
    requires Total(w) < U256 && Affordable(w, tx) && tx.nonce == NonceOf(w, tx.from.value)
    ensures BuyGas(w, tx.from.value, tx) == Paid(w, tx.from.value, tx)
    ensures tx.value < U256
  {
    hide Total, BalanceOf, NonceOf, SubBalance, Wrap64, Wrap256;
    BalanceWithinTotal(w, tx.from.value);
    assert Cost(tx.gas, tx.gasPrice) == tx.gas * tx.gasPrice;
    SubtractedIs(w, tx.from.value, tx.gas * tx.gasPrice);
    NextNonceIs(tx.nonce);
  }

  /**
    * A transaction is accepted if and only if its signature recovers to a sender, it carries
    * that account's nonce, the account can pay gas and value, and the gas covers the
    * intrinsic cost; otherwise the first of these that fails is the error.
    */
  lemma AttemptDecides(m: Machine, ctx: BlockCtx, w: World, tx: Tx, cumulative: u64, index: nat)
    ensures var r := ApplyTx(m, ctx, w, tx, cumulative, index);
            && (r.Accepted? <==> Acceptable(m, w, tx))
            && (r.Rejected? ==>
                  r.error == if tx.from.None? then InvalidSender
                             else if tx.nonce != NonceOf(w, tx.from.value) then NonceMismatch
                             else if !Affordable(w, tx) then InsufficientBalance
                             else if m.intrinsicGas(tx).None? then IntrinsicGasOverflow
                             else IntrinsicGasTooLow)
  {
    assert Cost(tx.gas, tx.gasPrice) == tx.gas * tx.gasPrice;
  }

  /** What the EVM answers to the transaction's own call. */
  function Answer(m: Machine, ctx: BlockCtx, w: World, tx: Tx): VmResult
    requires Acceptable(m, w, tx)
  {
    m.run(ctx, Paid(w, tx.from.value, tx), OwnCall(tx, tx.from.value, m.intrinsicGas(tx).value))
  }

  lemma AnswerIs(m: Machine, ctx: BlockCtx, w: World, tx: Tx)
    requires Total(w) < U256 && Acceptable(m, w, tx)
    ensures VmOf(m, ctx, w, tx) == Answer(m, ctx, w, tx)
  {
    PaidIsBought(w, tx);
    Wrap256Small(tx.value);
  }

  /**
    * The EVM is asked one thing only: two machines that agree on the intrinsic gas, on the
    * created address and on the transaction's own call give the same attempt.
    */
  lemma OneCallDecides(m: Machine, m': Machine, ctx: BlockCtx, w: World, tx: Tx, cumulative: u64, index: nat)
    requires Total(w) < U256
    requires m.intrinsicGas(tx) == m'.intrinsicGas(tx)
    requires tx.from.Some? ==> m.contractAddress(tx.from.value, tx.nonce) == m'.contractAddress(tx.from.value, tx.nonce)
    requires Acceptable(m, w, tx) ==> Answer(m, ctx, w, tx) == Answer(m', ctx, w, tx)
    ensures ApplyTx(m, ctx, w, tx, cumulative, index) == ApplyTx(m', ctx, w, tx, cumulative, index)
  {
    hide BuyGas, Settled, Wrap256, BalanceOf, Cost;
    AttemptDecides(m, ctx, w, tx, cumulative, index);
    AttemptDecides(m', ctx, w, tx, cumulative, index);
    if Acceptable(m, w, tx) {
      AnswerIs(m, ctx, w, tx);
      AnswerIs(m', ctx, w, tx);
    }
  }

  /** Gas bought, less what is left, less a refund of the counter but at most half of what was consumed. */
  function Charged(tx: Tx, vm: VmResult): nat
    requires vm.leftover <= tx.gas
  {
    var consumed := tx.gas - vm.leftover;
    consumed - Min(vm.world.refund, consumed / 2)
  }

  lemma ChargedIs(tx: Tx, vm: VmResult)
    requires vm.leftover <= tx.gas
    ensures GasUsedOf(tx, vm) == Charged(tx, vm)
    ensures Charged(tx, vm) <= tx.gas
  {
    WrapSmall(tx.gas - vm.leftover);
  }

  /** Everything but balances and the log count is as the EVM left it. */
  ghost predicate SameButMoney(after: World, w: World, logs: nat) {
    after == w.(balance := after.balance, logCount := w.logCount + logs)
  }

  /** The receipt, field by field. */
  ghost predicate Tells(r: Receipt, m: Machine, ctx: BlockCtx, tx: Tx, vm: VmResult, cumulative: u64, index: nat)
    requires vm.leftover <= tx.gas && tx.from.Some?
  {
    && r.txHash == tx.hash && r.gasUsed == Charged(tx, vm) && r.cumulativeGasUsed == Wrap64(cumulative + Charged(tx, vm))
    && r.blockNumber == ctx.number && r.blockHash == ZERO_HASH && r.txIndex == index
    && (r.success <==> !vm.failed)
    && r.contractAddress == (if tx.to.None? then Some(m.contractAddress(tx.from.value, tx.nonce)) else None)
    && |r.logs| == |vm.logs|
    && forall k :: 0 <= k < |r.logs| ==>
         r.logs[k].entry == vm.logs[k] && r.logs[k].txIndex == index && r.logs[k].index == vm.world.logCount + k
  }

  lemma ReceiptTells(m: Machine, ctx: BlockCtx, tx: Tx, vm: VmResult, cumulative: u64, index: nat)
    requires vm.leftover <= tx.gas && tx.from.Some?
    ensures Tells(ReceiptOf(m, ctx, tx.from.value, tx, vm, cumulative, index), m, ctx, tx, vm, cumulative, index)
  {
    hide GasUsedOf, Charged;
    ChargedIs(tx, vm);
  }

  lemma AcceptedReceipt(m: Machine, ctx: BlockCtx, w: World, tx: Tx, cumulative: u64, index: nat)
    requires ApplyTx(m, ctx, w, tx, cumulative, index).Accepted?
    ensures tx.from.Some? && m.intrinsicGas(tx).Some? && m.intrinsicGas(tx).value <= tx.gas
    ensures ApplyTx(m, ctx, w, tx, cumulative, index).receipt ==
            ReceiptOf(m, ctx, tx.from.value, tx, VmOf(m, ctx, w, tx), cumulative, index)
  {}

  /**
    * What an accepted transaction leaves, with every field of the receipt: the state of the
    * EVM's answer, in which the sender gets back the gas it is not charged for and the
    * coinbase gets the charge, account by account.
    */
  lemma AcceptedExactly(m: Machine, ctx: BlockCtx, w: World, tx: Tx, cumulative: u64, index: nat)
    requires WellBehaved(m) && KeyHeld(m, [tx]) && WorldOk(m, w) && Acceptable(m, w, tx)
    ensures var r, vm, s := ApplyTx(m, ctx, w, tx, cumulative, index), Answer(m, ctx, w, tx), tx.from.value;
            && r.Accepted? && vm.leftover <= tx.gas
            && SameButMoney(r.world, vm.world, |vm.logs|)
            && (forall a :: BalanceOf(r.world, a) ==
                            BalanceOf(vm.world, a) +
                            (if a == s then (tx.gas - Charged(tx, vm)) * tx.gasPrice else 0) +
                            (if a == ctx.coinbase then Charged(tx, vm) * tx.gasPrice else 0))
            && Tells(r.receipt, m, ctx, tx, vm, cumulative, index)
  {
    hide WellBehaved, KeyHeld, Total, BuyGas, BalanceOf, Wrap256, ApplyTx, Charged, Tells;
    AttemptDecides(m, ctx, w, tx, cumulative, index);
    var vm, s := Answer(m, ctx, w, tx), tx.from.value;
    AnswerIs(m, ctx, w, tx);
    AcceptedForm(m, ctx, w, tx, cumulative, index);
    VmFacts(m, ctx, w, tx);
    ChargedIs(tx, vm);
    AcceptedReceipt(m, ctx, w, tx, cumulative, index);
    ReceiptTells(m, ctx, tx, vm, cumulative, index);
    SettlementExact(ctx, s, tx, vm);
    SettledForm(ctx, s, tx, vm);
  }
}
