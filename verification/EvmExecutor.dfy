/** The executor itself: a mutable state database, and the loop that applies transactions to it. */
module EvmExecutor {
  import opened Common
  import opened Transactions
  import opened Ledger
  import opened Execution
  import BlockProofs

  /** go-ethereum's StateDB, as far as the executor uses it. */
  class StateDB {
    var world: World
    var snapshots: seq<World>

    constructor (w: World)
      ensures world == w && snapshots == []
    {
      world, snapshots := w, [];
    }

    method Snapshot() returns (id: nat)
      modifies this
      ensures id == |old(snapshots)|
      ensures snapshots == old(snapshots) + [world] && world == old(world)
    {
      id := |snapshots|;
      snapshots := snapshots + [world];
    }

    method RevertToSnapshot(id: nat)
      requires id < |snapshots|
      modifies this
      ensures world == old(snapshots)[id] && snapshots == old(snapshots)[..id]
    {
      world := snapshots[id];
      snapshots := snapshots[..id];
    }

    method SubBalance(a: Address, x: nat)
      modifies this`world
      ensures world == Execution.SubBalance(old(world), a, x)
    {
      world := Execution.SubBalance(world, a, x);
    }

    method AddBalance(a: Address, x: nat)
      modifies this`world
      ensures world == Execution.AddBalance(old(world), a, x)
    {
      world := Execution.AddBalance(world, a, x);
    }

    method SetNonce(a: Address, n: u64)
      modifies this`world
      ensures world == Ledger.SetNonce(old(world), a, n)
    {
      world := Ledger.SetNonce(world, a, n);
    }
  }

  datatype ExecutionResult =
    | Invalid(err: TxError)
    | Done(receipt: Receipt)

  function ResultOf(a: Applied): ExecutionResult {
    match a
    case Rejected(_, error) => Invalid(error)
    case Accepted(_, receipt) => Done(receipt)
  }

  class EVMExecutor {
    const machine: Machine

    constructor (machine: Machine)
      ensures this.machine == machine
    {
      this.machine := machine;
    }

    /** One attempt; on a late error the state database is left with gas already deducted. */
    method ApplyTransaction(stateDB: StateDB, tx: Tx, ctx: BlockCtx, cumulativeGas: u64, txIndex: nat)
      returns (result: ExecutionResult)
      modifies stateDB`world
      ensures var a := ApplyTx(machine, ctx, old(stateDB.world), tx, cumulativeGas, txIndex);
              stateDB.world == a.world && result == ResultOf(a)
    {
      hide Wrap256, Settled, ReceiptOf;
      if tx.from.None? {
        return Invalid(InvalidSender);
      }
      var sender := tx.from.value;
      var stateNonce: nat := NonceOf(stateDB.world, sender);
      if tx.nonce != stateNonce {
        return Invalid(NonceMismatch);
      }
      var gasCost := Cost(tx.gas, tx.gasPrice);
      if BalanceOf(stateDB.world, sender) < gasCost + tx.value {
        return Invalid(InsufficientBalance);
      }

      stateDB.SubBalance(sender, gasCost);
      if tx.to.Some? {
        stateDB.SetNonce(sender, Wrap64(stateNonce + 1));
      }
      assert stateDB.world == BuyGas(old(stateDB.world), sender, tx);

      var intrinsic := machine.intrinsicGas(tx);
      if intrinsic.None? {
        return Invalid(IntrinsicGasOverflow);
      }
      if tx.gas < intrinsic.value {
        return Invalid(IntrinsicGasTooLow);
      }
      var receipt := RunAndSettle(stateDB, tx, sender, ctx, tx.gas - intrinsic.value, cumulativeGas, txIndex);
      result := Done(receipt);
    }

    /** The second half of the attempt: run the EVM, hand out what is left of the gas, write the receipt. */
    method RunAndSettle(
      stateDB: StateDB, tx: Tx, sender: Address, ctx: BlockCtx, gas: u64, cumulativeGas: u64, txIndex: nat)
      returns (receipt: Receipt)
      modifies stateDB`world
      ensures var vm := machine.run(ctx, old(stateDB.world), CallOf(tx, sender, gas));
              && stateDB.world == Settled(ctx, sender, tx, vm)
              && receipt == ReceiptOf(machine, ctx, sender, tx, vm, cumulativeGas, txIndex)
    {
      hide Execution.AddBalance, Stamp, Wrap64, Wrap256, Cost;
      var vm := machine.run(ctx, stateDB.world, CallOf(tx, sender, gas));
      stateDB.world := vm.world;

      var gasUsed: nat := Wrap64(tx.gas - vm.leftover);
      var refund := stateDB.world.refund;
      var maxRefund := gasUsed / 2;
      if refund > maxRefund {
        refund := maxRefund;
      }
      gasUsed := gasUsed - refund;
      stateDB.AddBalance(sender, Cost(Wrap64(vm.leftover + refund), tx.gasPrice));
      stateDB.AddBalance(ctx.coinbase, Cost(gasUsed, tx.gasPrice));
      stateDB.world := stateDB.world.(logCount := stateDB.world.logCount + |vm.logs|);

      var contract := None;
      if tx.to.None? {
        contract := Some(machine.contractAddress(sender, tx.nonce));
      }
      receipt := Receipt(
        tx.hash, gasUsed, Wrap64(cumulativeGas + gasUsed), ctx.number, ZERO_HASH, txIndex,
        !vm.failed, contract, Stamp(vm.logs, txIndex, vm.world.logCount));
    }

    /** The loop refines `Execute`: same state, same receipts, same skipped list, same gas. */
    method ExecuteTransactions(stateDB: StateDB, txs: seq<Tx>, ctx: BlockCtx)
      returns (executed: seq<Receipt>, skipped: seq<Tx>, cumulativeGas: u64)
      modifies stateDB
      ensures var r := Execute(machine, ctx, old(stateDB.world), txs);
              && stateDB.world == r.world && executed == r.receipts
              && skipped == r.skipped && cumulativeGas == r.gas
    {
      hide Loop, ApplyTx, Reached, Execute;
      executed, skipped, cumulativeGas := [], [], 0;
      ghost var included: seq<Tx> := [];
      ghost var attempt := Attempting(machine, ctx);
      ReachedStart(attempt, ctx.gasLimit, stateDB.world, txs);
      for i := 0 to |txs|
        invariant Reached(attempt, ctx.gasLimit, old(stateDB.world), txs, i,
                          included, executed, skipped, stateDB.world, cumulativeGas)
      {
        var tx := txs[i];
        ghost var before, gasBefore := stateDB.world, cumulativeGas;
        if Wrap64(cumulativeGas + tx.gas) > ctx.gasLimit {
          StepSkip(attempt, ctx.gasLimit, old(stateDB.world), txs, i, included, executed, skipped, before, gasBefore);
          skipped := skipped + [tx];
          continue;
        }
        var snap := stateDB.Snapshot();
        var result := ApplyTransaction(stateDB, tx, ctx, cumulativeGas, i);
        ghost var a := attempt(before, tx, gasBefore, i);
        assert stateDB.world == a.world && result == ResultOf(a);
        if result.Invalid? {
          stateDB.RevertToSnapshot(snap);
          StepSkip(attempt, ctx.gasLimit, old(stateDB.world), txs, i, included, executed, skipped, before, gasBefore);
          skipped := skipped + [tx];
          continue;
        }
        cumulativeGas := Wrap64(cumulativeGas + result.receipt.gasUsed);
        StepInclude(attempt, ctx.gasLimit, old(stateDB.world), txs, i, included, executed, skipped,
                    before, gasBefore, a, cumulativeGas);
        executed := executed + [result.receipt.(cumulativeGasUsed := cumulativeGas)];
        included := included + [tx];
      }
      ReachedEnd(machine, ctx, old(stateDB.world), txs, included, executed, skipped, stateDB.world, cumulativeGas);
    }
  }

  /** A run of the loop from the middle, with what was done before it put in front. */
  ghost function Resumed(included: seq<Tx>, receipts: seq<Receipt>, skipped: seq<Tx>, r: BlockRun): BlockRun {
    BlockRun(r.world, included + r.included, receipts + r.receipts, skipped + r.skipped, r.gas)
  }

  /** After i transactions the loop has done this much and stands here. */
  ghost predicate Reached(
    attempt: Attempt, limit: u64, start: World, txs: seq<Tx>, i: nat,
    included: seq<Tx>, receipts: seq<Receipt>, skipped: seq<Tx>, w: World, c: u64)
    requires i <= |txs|
  {
    Loop(attempt, limit, start, txs, 0, 0) ==
    Resumed(included, receipts, skipped, Loop(attempt, limit, w, txs[i..], i, c))
  }

  lemma ReachedStart(attempt: Attempt, limit: u64, start: World, txs: seq<Tx>)
    ensures Reached(attempt, limit, start, txs, 0, [], [], [], start, 0)
  {
    assert txs[0..] == txs;
  }

  lemma ReachedEnd(
    m: Machine, ctx: BlockCtx, start: World, txs: seq<Tx>,
    included: seq<Tx>, receipts: seq<Receipt>, skipped: seq<Tx>, w: World, c: u64)
    requires Reached(Attempting(m, ctx), ctx.gasLimit, start, txs, |txs|, included, receipts, skipped, w, c)
    ensures Execute(m, ctx, start, txs) == BlockRun(w, included, receipts, skipped, c)
  {
    assert txs[|txs|..] == [];
  }

  lemma StepSkip(
    attempt: Attempt, limit: u64, start: World, txs: seq<Tx>, i: nat,
    included: seq<Tx>, receipts: seq<Receipt>, skipped: seq<Tx>, w: World, c: u64)
    requires i < |txs| && Reached(attempt, limit, start, txs, i, included, receipts, skipped, w, c)
    requires Wrap64(c + txs[i].gas) > limit || attempt(w, txs[i], c, i).Rejected?
    ensures Reached(attempt, limit, start, txs, i + 1, included, receipts, skipped + [txs[i]], w, c)
  {
    hide Loop;
    assert txs[i..][0] == txs[i] && txs[i..][1..] == txs[i + 1..];
    BlockProofs.LoopStep(attempt, limit, w, txs[i..], i, c);
    var r := Loop(attempt, limit, w, txs[i + 1..], i + 1, c);
    assert skipped + ([txs[i]] + r.skipped) == (skipped + [txs[i]]) + r.skipped;
  }

  lemma StepInclude(
    attempt: Attempt, limit: u64, start: World, txs: seq<Tx>, i: nat,
    included: seq<Tx>, receipts: seq<Receipt>, skipped: seq<Tx>, w: World, c: u64,
    a: Applied, total: u64)
    requires i < |txs| && Reached(attempt, limit, start, txs, i, included, receipts, skipped, w, c)
    requires Wrap64(c + txs[i].gas) <= limit && attempt(w, txs[i], c, i) == a
    requires a.Accepted? && total == Wrap64(c + a.receipt.gasUsed)
    ensures Reached(attempt, limit, start, txs, i + 1, included + [txs[i]],
                    receipts + [a.receipt.(cumulativeGasUsed := total)], skipped, a.world, total)
  {
    hide Loop;
    assert txs[i..][0] == txs[i] && txs[i..][1..] == txs[i + 1..];
    BlockProofs.LoopStep(attempt, limit, w, txs[i..], i, c);
    var receipt := a.receipt.(cumulativeGasUsed := total);
    var r := Loop(attempt, limit, a.world, txs[i + 1..], i + 1, total);
    assert included + ([txs[i]] + r.included) == (included + [txs[i]]) + r.included;
    assert receipts + ([receipt] + r.receipts) == (receipts + [receipt]) + r.receipts;
  }
}
