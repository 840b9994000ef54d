/**
  * What executing transactions means: one transaction against a world, and a block's
  * worth of them in order.  Arithmetic wraps where the program's does.
  */
module Execution {
  import opened Common
  import opened Transactions
  import opened Ledger

  datatype BlockCtx = BlockCtx(
    number: u64,
    timestamp: u64,
    coinbase: Address,
    gasLimit: u64,
    baseFee: nat,
    parentHash: Hash)

  datatype LogData = LogData(emitter: Address, topics: seq<Hash>, data: Bytes)

  datatype Log = Log(entry: LogData, txIndex: nat, index: nat)

  datatype Receipt = Receipt(
    txHash: Hash,
    gasUsed: u64,
    cumulativeGasUsed: u64,
    blockNumber: u64,
    blockHash: Hash,
    txIndex: nat,
    success: bool,
    contractAddress: Option<Address>,
    logs: seq<Log>)

  datatype Call = Call(caller: Address, to: Option<Address>, input: Bytes, gas: u64, value: nat, gasPrice: nat)

  datatype VmResult = VmResult(world: World, leftover: u64, failed: bool, logs: seq<LogData>)

  /**
    * The parts of go-ethereum the executor calls: message call or contract creation,
    * the intrinsic gas of a transaction (`None` on overflow), the address of a created
    * contract, and which addresses are controlled by a key.
    */
  datatype Machine = Machine(
    run: (BlockCtx, World, Call) -> VmResult,
    intrinsicGas: Tx -> Option<u64>,
    contractAddress: (Address, u64) -> Address,
    eoa: Address -> bool)

  // ---------- what is assumed of the EVM ----------

  /** No key-held account has code. */
  ghost predicate KeysBare(m: Machine, w: World) {
    forall a :: m.eoa(a) && a in w.code ==> w.code[a] == []
  }

  /** A state as it can come about: the balances add up to less than 2^256, and a key-held account has no code. */
  ghost predicate WorldOk(m: Machine, w: World) {
    Total(w) < U256 && KeysBare(m, w)
  }

  /** A call from a key-held account that can afford the value it sends. */
  ghost predicate Callable(m: Machine, w: World, c: Call) {
    m.eoa(c.caller) && WorldOk(m, w) && c.value <= BalanceOf(w, c.caller)
  }

  /** No key-held account self-destructs or gets code. */
  ghost predicate KeysSurvive(m: Machine, before: World, after: World) {
    && (forall a :: m.eoa(a) && a in after.destructed ==> a in before.destructed)
    && (KeysBare(m, before) ==> KeysBare(m, after))
  }

  ghost predicate Honours(m: Machine, w: World, c: Call, r: VmResult) {
    && r.leftover <= c.gas
    && Total(r.world) <= Total(w)
    && (forall a :: NonceOf(w, a) <= NonceOf(r.world, a))
    && (forall a :: m.eoa(a) && a != c.caller ==> NonceOf(r.world, a) == NonceOf(w, a))
    && KeysSurvive(m, w, r.world)
    && NonceOf(r.world, c.caller) ==
       NonceOf(w, c.caller) + (if c.to.None? && NonceOf(w, c.caller) + 1 < U64 then 1 else 0)
  }

  /** The EVM never leaves more gas than it got, mints nothing, moves nonces as the protocol says, spares key-held accounts. */
  ghost predicate WellBehaved(m: Machine) {
    forall ctx: BlockCtx, w: World, c: Call ::
      Callable(m, w, c) ==> Honours(m, w, c, m.run(ctx, w, c))
  }

  /** In addition it burns nothing. */
  ghost predicate BurnsNothing(m: Machine) {
    forall ctx: BlockCtx, w: World, c: Call ::
      Callable(m, w, c) ==> Total(m.run(ctx, w, c).world) == Total(w)
  }

  /** Whoever a signature is recovered to holds a key. */
  ghost predicate KeyHeld(m: Machine, txs: seq<Tx>) {
    forall tx :: tx in txs && tx.from.Some? ==> m.eoa(tx.from.value)
  }

  // ---------- one transaction ----------

  datatype TxError = InvalidSender | NonceMismatch | InsufficientBalance | IntrinsicGasOverflow | IntrinsicGasTooLow

  /** `world` is what the state database holds when the attempt ends, rejected or not. */
  datatype Applied =
    | Rejected(world: World, error: TxError)
    | Accepted(world: World, receipt: Receipt)

  function Cost(gas: nat, price: nat): nat {
    gas * price
  }

  function AddBalance(w: World, a: Address, x: nat): World {
    SetBalance(w, a, Wrap256(BalanceOf(w, a) + Wrap256(x)))
  }

  function SubBalance(w: World, a: Address, x: nat): World {
    SetBalance(w, a, Wrap256(BalanceOf(w, a) - Wrap256(x)))
  }

  /** Gas is paid for up front; a message call also takes its nonce here. */
  function BuyGas(w: World, s: Address, tx: Tx): World {
    var paid := SubBalance(w, s, Cost(tx.gas, tx.gasPrice));
    if tx.to.Some? then SetNonce(paid, s, Wrap64(NonceOf(w, s) + 1)) else paid
  }

  function CallOf(tx: Tx, s: Address, gas: u64): Call {
    Call(s, tx.to, tx.data, gas, Wrap256(tx.value), tx.gasPrice)
  }

  /** The refund counter may repay at most half of the gas consumed. */
  function RefundOf(tx: Tx, vm: VmResult): u64 {
    Min(vm.world.refund, Wrap64(tx.gas - vm.leftover) / 2)
  }

  function GasUsedOf(tx: Tx, vm: VmResult): u64 {
    Wrap64(tx.gas - vm.leftover) - RefundOf(tx, vm)
  }

  /** Unused gas and refund go back to the sender, the rest to the coinbase. */
  function Settled(ctx: BlockCtx, s: Address, tx: Tx, vm: VmResult): World {
    var back := AddBalance(vm.world, s, Cost(Wrap64(vm.leftover + RefundOf(tx, vm)), tx.gasPrice));
    var paid := AddBalance(back, ctx.coinbase, Cost(GasUsedOf(tx, vm), tx.gasPrice));
    paid.(logCount := paid.logCount + |vm.logs|)
  }

  function Stamp(logs: seq<LogData>, txIndex: nat, first: nat): seq<Log> {
    seq(|logs|, k requires 0 <= k < |logs| => Log(logs[k], txIndex, first + k))
  }

  function ReceiptOf(m: Machine, ctx: BlockCtx, s: Address, tx: Tx, vm: VmResult, cumulative: u64, index: nat): Receipt {
    Receipt(
      tx.hash,
      GasUsedOf(tx, vm),
      Wrap64(cumulative + GasUsedOf(tx, vm)),
      ctx.number,
      ZERO_HASH,
      index,
      !vm.failed,
      if tx.to.None? then Some(m.contractAddress(s, tx.nonce)) else None,
      Stamp(vm.logs, index, vm.world.logCount))
  }

  function ApplyTx(m: Machine, ctx: BlockCtx, w: World, tx: Tx, cumulative: u64, index: nat): Applied {
    if tx.from.None? then Rejected(w, InvalidSender)
    else
      var s := tx.from.value;
      if tx.nonce != NonceOf(w, s) then Rejected(w, NonceMismatch)
      else if BalanceOf(w, s) < Cost(tx.gas, tx.gasPrice) + tx.value then Rejected(w, InsufficientBalance)
      else
        var bought := BuyGas(w, s, tx);
        match m.intrinsicGas(tx)
        case None => Rejected(bought, IntrinsicGasOverflow)
        case Some(intrinsic) =>
          if tx.gas < intrinsic then Rejected(bought, IntrinsicGasTooLow)
          else
            var vm := m.run(ctx, bought, CallOf(tx, s, tx.gas - intrinsic));
            Accepted(Settled(ctx, s, tx, vm), ReceiptOf(m, ctx, s, tx, vm, cumulative, index))
  }

  // ---------- a block's worth of transactions ----------

  datatype BlockRun = BlockRun(world: World, included: seq<Tx>, receipts: seq<Receipt>, skipped: seq<Tx>, gas: u64)

  function Skip(tx: Tx, r: BlockRun): BlockRun {
    r.(skipped := [tx] + r.skipped)
  }

  function Include(tx: Tx, receipt: Receipt, r: BlockRun): BlockRun {
    r.(included := [tx] + r.included, receipts := [receipt] + r.receipts)
  }

  /** One attempt: world before, transaction, gas used so far, position in the list. */
  type Attempt = (World, Tx, u64, nat) -> Applied

  /** The loop over the transactions, for any way of attempting one. */
  function Loop(attempt: Attempt, limit: u64, w: World, txs: seq<Tx>, index: nat, cumulative: u64): BlockRun
    decreases |txs|
  {
    if txs == [] then BlockRun(w, [], [], [], cumulative)
    else if Wrap64(cumulative + txs[0].gas) > limit then
      Skip(txs[0], Loop(attempt, limit, w, txs[1..], index + 1, cumulative))
    else
      match attempt(w, txs[0], cumulative, index)
      case Rejected(_, _) =>
        Skip(txs[0], Loop(attempt, limit, w, txs[1..], index + 1, cumulative))
      case Accepted(w', receipt) =>
        var total := Wrap64(cumulative + receipt.gasUsed);
        Include(txs[0], receipt.(cumulativeGasUsed := total), Loop(attempt, limit, w', txs[1..], index + 1, total))
  }

  function Attempting(m: Machine, ctx: BlockCtx): Attempt {
    (w: World, tx: Tx, cumulative: u64, index: nat) => ApplyTx(m, ctx, w, tx, cumulative, index)
  }

  function Execute(m: Machine, ctx: BlockCtx, w: World, txs: seq<Tx>): BlockRun {
    Loop(Attempting(m, ctx), ctx.gasLimit, w, txs, 0, 0)
  }
}
