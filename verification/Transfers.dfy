/** What a transaction does to every account, on the EVM that only transfers value. */
module Transfers {
  import opened Common
  import opened Transactions
  import opened Ledger
  import opened Execution
  import opened TransactionProofs
  import opened TransactionExact
  import opened Feasibility

  /** Who receives the value: the recipient, or for a creation the address that stands for it. */
  function Recipient(hole: Address, tx: Tx): Address {
    if tx.to.Some? then tx.to.value else hole
  }

  /** The charge is the intrinsic gas, less a refund of at most half of it. */
  function Spent(w: World, intrinsic: u64): nat {
    intrinsic - Min(w.refund, intrinsic / 2)
  }

  /** Value leaves the caller and arrives at the target, account by account. */
  lemma PlainBalances(m: Machine, hole: Address, w: World, c: Call)
    requires Callable(m, w, c)
    ensures var after := PlainTransfer(hole, w, c).world;
            var target := if c.to.Some? then c.to.value else hole;
            forall a :: BalanceOf(after, a) ==
                        BalanceOf(w, a) - (if a == c.caller then c.value else 0) + (if a == target then c.value else 0)
  {
    hide Wrap256, AddBalance, SubBalance, Total, NonceOf, KeysBare;
    var bumped := if c.to.None? && NonceOf(w, c.caller) + 1 < U64 then SetNonce(w, c.caller, NonceOf(w, c.caller) + 1) else w;
    SameMoney(w, bumped);
    Moves(bumped, c.caller, if c.to.Some? then c.to.value else hole, c.value);
  }

  lemma SameMoney(w: World, w': World)
    requires w'.balance == w.balance
    ensures Total(w') == Total(w) && forall a :: BalanceOf(w', a) == BalanceOf(w, a)
  {}

  lemma Moves(w: World, from: Address, to: Address, x: nat)
    requires Total(w) < U256 && x <= BalanceOf(w, from)
    ensures var after := AddBalance(SubBalance(w, from, x), to, x);
            forall a :: BalanceOf(after, a) == BalanceOf(w, a) - (if a == from then x else 0) + (if a == to then x else 0)
  {
    hide Wrap256, Total;
    SubBalanceExact(w, from, x);
    AddBalanceExact(SubBalance(w, from, x), to, x);
  }

  lemma PaidCallable(m: Machine, w: World, tx: Tx)
    requires WorldOk(m, w) && KeyHeld(m, [tx]) && Acceptable(m, w, tx)
    ensures Callable(m, Paid(w, tx.from.value, tx), OwnCall(tx, tx.from.value, m.intrinsicGas(tx).value))
  {
    var s := tx.from.value;
    assert tx in [tx];
    PaidIsBought(w, tx);
    assert tx.gas * tx.gasPrice == Cost(tx.gas, tx.gasPrice);
    PurchaseExact(w, s, tx);
  }

  /**
    * A transfer, exactly: accepted if and only if signature, nonce, balance and gas are right;
    * then the value goes from the sender to the recipient, the charge from the sender to the
    * coinbase, and the receipt says success.
    */
  lemma TransferExactly(
    hole: Address, intrinsic: u64, eoa: Address -> bool, ctx: BlockCtx, w: World, tx: Tx, cumulative: u64, index: nat)
    requires WorldOk(PlainMachine(hole, intrinsic, eoa), w) && KeyHeld(PlainMachine(hole, intrinsic, eoa), [tx])
    ensures var r := ApplyTx(PlainMachine(hole, intrinsic, eoa), ctx, w, tx, cumulative, index);
            && (r.Accepted? <==>
                  && tx.from.Some? && tx.nonce == NonceOf(w, tx.from.value)
                  && tx.gas * tx.gasPrice + tx.value <= BalanceOf(w, tx.from.value)
                  && intrinsic <= tx.gas)
            && (r.Accepted? ==>
                  var fee := Spent(w, intrinsic) * tx.gasPrice;
                  && r.receipt.success && r.receipt.gasUsed == Spent(w, intrinsic)
                  && forall a :: BalanceOf(r.world, a) ==
                                 BalanceOf(w, a) - (if a == tx.from.value then tx.value + fee else 0) +
                                 (if a == Recipient(hole, tx) then tx.value else 0) +
                                 (if a == ctx.coinbase then fee else 0))
  {
    hide WellBehaved, WorldOk, KeyHeld, ApplyTx, PlainTransfer;
    var m := PlainMachine(hole, intrinsic, eoa);
    AttemptDecides(m, ctx, w, tx, cumulative, index);
    if Acceptable(m, w, tx) {
      PlainMachineBehaves(hole, intrinsic, eoa);
      AcceptedExactly(m, ctx, w, tx, cumulative, index);
      PaidCallable(m, w, tx);
      var s := tx.from.value;
      PlainBalances(m, hole, Paid(w, s, tx), OwnCall(tx, s, intrinsic));
      PlainAnswer(hole, Paid(w, s, tx), OwnCall(tx, s, intrinsic));
      Change(tx.gas, Spent(w, intrinsic), tx.gasPrice);
    }
  }

  lemma PlainAnswer(hole: Address, w: World, c: Call)
    ensures var vm := PlainTransfer(hole, w, c); vm.leftover == c.gas && !vm.failed && vm.world.refund == w.refund
  {}

  lemma Change(gas: nat, used: nat, price: nat)
    requires used <= gas
    ensures gas * price - (gas - used) * price == used * price
  {}
}
