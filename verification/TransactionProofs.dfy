/** What one transaction does to money, gas and nonces. */
module TransactionProofs {
  import opened Common
  import opened Transactions
  import opened Ledger
  import opened Execution

  lemma GasSplit(gas: nat, kept: nat, price: nat)
    requires kept <= gas
    ensures Cost(kept, price) + Cost(gas - kept, price) == Cost(gas, price)
  {}

  lemma AddBalanceExact(w: World, a: Address, x: nat)
    requires Total(w) + x < U256
    ensures Total(AddBalance(w, a, x)) == Total(w) + x
    ensures BalanceOf(AddBalance(w, a, x), a) == BalanceOf(w, a) + x
  {
    BalanceWithinTotal(w, a);
    Wrap256Small(x);
    Wrap256Small(BalanceOf(w, a) + x);
    TotalSetBalance(w, a, BalanceOf(w, a) + x);
  }

  lemma SubBalanceExact(w: World, a: Address, x: nat)
    requires Total(w) < U256 && x <= BalanceOf(w, a)
    ensures Total(SubBalance(w, a, x)) == Total(w) - x
    ensures BalanceOf(SubBalance(w, a, x), a) == BalanceOf(w, a) - x
  {
    BalanceWithinTotal(w, a);
    Wrap256Small(x);
    Wrap256Small(BalanceOf(w, a) - x);
    TotalSetBalance(w, a, BalanceOf(w, a) - x);
  }

  /** The balance check covers gas and value, so buying the gas never underflows. */
  lemma PurchaseExact(w: World, s: Address, tx: Tx)
    requires Total(w) < U256
    requires Cost(tx.gas, tx.gasPrice) + tx.value <= BalanceOf(w, s)
    ensures var b := BuyGas(w, s, tx);
            && Total(b) == Total(w) - Cost(tx.gas, tx.gasPrice)
            && BalanceOf(b, s) == BalanceOf(w, s) - Cost(tx.gas, tx.gasPrice)
            && CallOf(tx, s, 0).value == tx.value <= BalanceOf(b, s)
            && NonceOf(b, s) == (if tx.to.Some? then Wrap64(NonceOf(w, s) + 1) else NonceOf(w, s))
            && (forall a :: a != s ==> NonceOf(b, a) == NonceOf(w, a))
  {
    SubBalanceExact(w, s, Cost(tx.gas, tx.gasPrice));
    BalanceWithinTotal(w, s);
    Wrap256Small(tx.value);
  }

  /** Refund and fee bounds: nothing underflows in the gas arithmetic either. */
  lemma GasExact(tx: Tx, vm: VmResult)
    requires vm.leftover <= tx.gas
    ensures RefundOf(tx, vm) <= (tx.gas - vm.leftover) / 2
    ensures GasUsedOf(tx, vm) == tx.gas - vm.leftover - RefundOf(tx, vm)
    ensures Wrap64(vm.leftover + RefundOf(tx, vm)) == tx.gas - GasUsedOf(tx, vm)
    ensures tx.gas - vm.leftover <= 2 * GasUsedOf(tx, vm) <= 2 * tx.gas
  {
    WrapSmall(tx.gas - vm.leftover);
    WrapSmall(vm.leftover + RefundOf(tx, vm));
  }

  /** What the sender and the coinbase receive; both shares go to one account when they coincide. */
  function Receives(a: Address, s: Address, coinbase: Address, unused: nat, used: nat): nat {
    (if a == s then unused else 0) + (if a == coinbase then used else 0)
  }

  lemma TwoCredits(w: World, s: Address, c: Address, x: nat, y: nat)
    requires Total(w) + x + y < U256
    ensures var after := AddBalance(AddBalance(w, s, x), c, y);
            && Total(after) == Total(w) + x + y
            && (forall a :: BalanceOf(after, a) ==
                            BalanceOf(w, a) + Receives(a, s, c, x, y))
  {
    AddBalanceExact(w, s, x);
    AddBalanceExact(AddBalance(w, s, x), c, y);
  }

  /** The settlement hands out exactly the gas that was bought, account by account. */
  lemma SettlementExact(ctx: BlockCtx, s: Address, tx: Tx, vm: VmResult)
    requires vm.leftover <= tx.gas
    requires Total(vm.world) + Cost(tx.gas, tx.gasPrice) < U256
    ensures var after := Settled(ctx, s, tx, vm);
            var used := GasUsedOf(tx, vm);
            && Total(after) == Total(vm.world) + Cost(tx.gas, tx.gasPrice)
            && (forall a :: BalanceOf(after, a) ==
                            BalanceOf(vm.world, a) +
                            Receives(a, s, ctx.coinbase, Cost(tx.gas - used, tx.gasPrice), Cost(used, tx.gasPrice)))
            && after.nonce == vm.world.nonce
  {
    var used := GasUsedOf(tx, vm);
    SettledForm(ctx, s, tx, vm);
    assert 0 <= used <= tx.gas by { GasExact(tx, vm); }
    var back, fee := Cost(tx.gas - used, tx.gasPrice), Cost(used, tx.gasPrice);
    assert back + fee == Cost(tx.gas, tx.gasPrice) by { GasSplit(tx.gas, used, tx.gasPrice); }
    TwoCredits(vm.world, s, ctx.coinbase, back, fee);
  }

  lemma SettledForm(ctx: BlockCtx, s: Address, tx: Tx, vm: VmResult)
    requires vm.leftover <= tx.gas
    ensures GasUsedOf(tx, vm) <= tx.gas
    ensures var used := GasUsedOf(tx, vm);
            Settled(ctx, s, tx, vm) ==
            AddBalance(AddBalance(vm.world, s, Cost(tx.gas - used, tx.gasPrice)), ctx.coinbase, Cost(used, tx.gasPrice))
              .(logCount := vm.world.logCount + |vm.logs|)
  {
    hide BalanceOf, Cost, RefundOf, GasUsedOf, Wrap64, Wrap256;
    GasExact(tx, vm);
  }

  /** The run of the EVM inside an attempt that gets that far. */
  ghost function VmOf(m: Machine, ctx: BlockCtx, w: World, tx: Tx): VmResult
    requires tx.from.Some? && m.intrinsicGas(tx).Some? && m.intrinsicGas(tx).value <= tx.gas
  {
    m.run(ctx, BuyGas(w, tx.from.value, tx), CallOf(tx, tx.from.value, tx.gas - m.intrinsicGas(tx).value))
  }

  lemma AcceptedForm(m: Machine, ctx: BlockCtx, w: World, tx: Tx, cumulative: u64, index: nat)
    requires ApplyTx(m, ctx, w, tx, cumulative, index).Accepted?
    ensures tx.from.Some? && tx.nonce == NonceOf(w, tx.from.value)
    ensures Cost(tx.gas, tx.gasPrice) + tx.value <= BalanceOf(w, tx.from.value)
    ensures m.intrinsicGas(tx).Some? && m.intrinsicGas(tx).value <= tx.gas
    ensures var r := ApplyTx(m, ctx, w, tx, cumulative, index);
            var vm := VmOf(m, ctx, w, tx);
            && r.world == Settled(ctx, tx.from.value, tx, vm)
            && r.receipt.gasUsed == GasUsedOf(tx, vm)
  {}

  lemma PurchaseSpares(m: Machine, w: World, s: Address, tx: Tx)
    ensures KeysSurvive(m, w, BuyGas(w, s, tx))
  {}

  lemma SparesBoth(m: Machine, a: World, b: World, c: World)
    requires KeysSurvive(m, a, b) && KeysSurvive(m, b, c)
    ensures KeysSurvive(m, a, c)
  {}

  /** What is assumed of the EVM, for a call whose gas has been bought. */
  lemma VmHonours(m: Machine, ctx: BlockCtx, w: World, tx: Tx)
    requires WellBehaved(m) && KeyHeld(m, [tx]) && WorldOk(m, w)
    requires tx.from.Some? && m.intrinsicGas(tx).Some? && m.intrinsicGas(tx).value <= tx.gas
    requires Cost(tx.gas, tx.gasPrice) + tx.value <= BalanceOf(w, tx.from.value)
    ensures var s := tx.from.value;
            var bought, call := BuyGas(w, s, tx), CallOf(tx, s, tx.gas - m.intrinsicGas(tx).value);
            && Honours(m, bought, call, VmOf(m, ctx, w, tx))
            && (BurnsNothing(m) ==> Total(VmOf(m, ctx, w, tx).world) == Total(bought))
  {
    hide Honours, BuyGas, Wrap256, Total, BalanceOf;
    var s := tx.from.value;
    assert tx in [tx];
    PurchaseExact(w, s, tx);
    PurchaseSpares(m, w, s, tx);
    assert Callable(m, BuyGas(w, s, tx), CallOf(tx, s, tx.gas - m.intrinsicGas(tx).value));
  }

  lemma VmFacts(m: Machine, ctx: BlockCtx, w: World, tx: Tx)
    requires WellBehaved(m) && KeyHeld(m, [tx]) && WorldOk(m, w)
    requires tx.from.Some? && m.intrinsicGas(tx).Some? && m.intrinsicGas(tx).value <= tx.gas
    requires Cost(tx.gas, tx.gasPrice) + tx.value <= BalanceOf(w, tx.from.value)
    ensures var vm, s := VmOf(m, ctx, w, tx), tx.from.value;
            var bought := BuyGas(w, s, tx);
            && vm.leftover + m.intrinsicGas(tx).value <= tx.gas
            && Total(vm.world) + Cost(tx.gas, tx.gasPrice) <= Total(w)
            && (BurnsNothing(m) ==> Total(vm.world) + Cost(tx.gas, tx.gasPrice) == Total(w))
            && (forall a :: NonceOf(bought, a) <= NonceOf(vm.world, a))
            && (forall a :: m.eoa(a) && a != s ==> NonceOf(vm.world, a) == NonceOf(w, a))
            && NonceOf(vm.world, s) ==
               NonceOf(bought, s) + (if tx.to.None? && NonceOf(bought, s) + 1 < U64 then 1 else 0)
            && NonceOf(bought, s) == (if tx.to.Some? then Wrap64(NonceOf(w, s) + 1) else NonceOf(w, s))
            && (forall a :: a != s ==> NonceOf(bought, a) == NonceOf(w, a))
            && KeysSurvive(m, w, vm.world)
  {
    hide BuyGas, Wrap64, Wrap256, WellBehaved, KeyHeld, KeysSurvive, BurnsNothing, Total, BalanceOf, VmOf;
    var s := tx.from.value;
    PurchaseExact(w, s, tx);
    VmHonours(m, ctx, w, tx);
    PurchaseSpares(m, w, s, tx);
    SparesBoth(m, w, BuyGas(w, s, tx), VmOf(m, ctx, w, tx).world);
  }

  /**
    * An accepted transaction creates no money, and destroys none unless the EVM does;
    * it is charged at most the gas it offered, and at least half of its intrinsic gas.
    */
  lemma AcceptedConserves(m: Machine, ctx: BlockCtx, w: World, tx: Tx, cumulative: u64, index: nat)
    requires WellBehaved(m) && KeyHeld(m, [tx]) && WorldOk(m, w)
    requires ApplyTx(m, ctx, w, tx, cumulative, index).Accepted?
    ensures var r := ApplyTx(m, ctx, w, tx, cumulative, index);
            && Total(r.world) <= Total(w)
            && (BurnsNothing(m) ==> Total(r.world) == Total(w))
            && m.intrinsicGas(tx).Some?
            && m.intrinsicGas(tx).value <= 2 * r.receipt.gasUsed <= 2 * tx.gas
  {
    AcceptedForm(m, ctx, w, tx, cumulative, index);
    VmFacts(m, ctx, w, tx);
    var vm := VmOf(m, ctx, w, tx);
    GasExact(tx, vm);
    SettlementExact(ctx, tx.from.value, tx, vm);
  }

  /**
    * An accepted transaction carries its sender's current nonce and moves that nonce up
    * by one, no other key-held account's nonce moves, and no nonce at all goes down.
    */
  lemma AcceptedNonces(m: Machine, ctx: BlockCtx, w: World, tx: Tx, cumulative: u64, index: nat)
    requires WellBehaved(m) && KeyHeld(m, [tx]) && WorldOk(m, w)
    requires tx.nonce + 1 < U64
    requires ApplyTx(m, ctx, w, tx, cumulative, index).Accepted?
    ensures var after := ApplyTx(m, ctx, w, tx, cumulative, index).world;
            && tx.from.Some? && tx.nonce == NonceOf(w, tx.from.value)
            && NonceOf(after, tx.from.value) == tx.nonce + 1
            && (forall a :: NonceOf(w, a) <= NonceOf(after, a))
            && (forall a :: m.eoa(a) && a != tx.from.value ==> NonceOf(after, a) == NonceOf(w, a))
  {
    AcceptedForm(m, ctx, w, tx, cumulative, index);
    VmFacts(m, ctx, w, tx);
    var vm := VmOf(m, ctx, w, tx);
    WrapSmall(tx.nonce + 1);
    SettledNonces(ctx, tx.from.value, tx, vm);
  }

  /** No key-held account self-destructs in an accepted transaction. */
  lemma AcceptedSpares(m: Machine, ctx: BlockCtx, w: World, tx: Tx, cumulative: u64, index: nat)
    requires WellBehaved(m) && KeyHeld(m, [tx]) && WorldOk(m, w)
    requires ApplyTx(m, ctx, w, tx, cumulative, index).Accepted?
    ensures KeysSurvive(m, w, ApplyTx(m, ctx, w, tx, cumulative, index).world)
  {
    AcceptedForm(m, ctx, w, tx, cumulative, index);
    VmFacts(m, ctx, w, tx);
    var vm := VmOf(m, ctx, w, tx);
    assert Settled(ctx, tx.from.value, tx, vm).destructed == vm.world.destructed;
  }

  lemma SettledNonces(ctx: BlockCtx, s: Address, tx: Tx, vm: VmResult)
    ensures forall a :: NonceOf(Settled(ctx, s, tx, vm), a) == NonceOf(vm.world, a)
  {
    assert Settled(ctx, s, tx, vm).nonce == vm.world.nonce;
  }

  /**
    * The nonce bound is needed, exactly: a message call at the last nonce wraps the
    * account back to nonce zero, after which every transaction the account ever sent is
    * valid again, and a creation at the last nonce leaves the nonce where it is.
    */
  lemma NonceAdvancesExactly(m: Machine, ctx: BlockCtx, w: World, tx: Tx, cumulative: u64, index: nat)
    requires WellBehaved(m) && KeyHeld(m, [tx]) && WorldOk(m, w)
    requires ApplyTx(m, ctx, w, tx, cumulative, index).Accepted?
    ensures tx.from.Some?
    ensures var next := NonceOf(ApplyTx(m, ctx, w, tx, cumulative, index).world, tx.from.value);
            && (next > tx.nonce <==> tx.nonce + 1 < U64)
            && (tx.nonce + 1 == U64 ==> next == if tx.to.Some? then 0 else tx.nonce)
  {
    AcceptedForm(m, ctx, w, tx, cumulative, index);
    if tx.nonce + 1 < U64 {
      AcceptedNonces(m, ctx, w, tx, cumulative, index);
    } else {
      VmFacts(m, ctx, w, tx);
      var vm := VmOf(m, ctx, w, tx);
      assert Wrap64(tx.nonce + 1) == 0;
      SettledNonces(ctx, tx.from.value, tx, vm);
    }
  }
}
