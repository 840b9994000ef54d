/** The assumptions of the safety theorems can be met: an EVM that honours them, and the state a new sequencer starts in. */
module Feasibility {
  import opened Common
  import opened Transactions
  import opened Ledger
  import opened Execution
  import opened TransactionProofs
  import opened ChainState
  import opened ChainProofs
  import ChainLaws
  import ChainStore
  import ChainStoreProofs
  import Batching
  import AdaptiveSizer
  import opened Pipeline
  import opened PipelineProofs
  import opened PipelineControls

  /** Moves value and nothing else; a creation also takes the caller's nonce and sends to the address `hole`. */
  function PlainTransfer(hole: Address, w: World, c: Call): VmResult {
    var bumped := if c.to.None? && NonceOf(w, c.caller) + 1 < U64 then SetNonce(w, c.caller, NonceOf(w, c.caller) + 1) else w;
    var target := if c.to.Some? then c.to.value else hole;
    VmResult(AddBalance(SubBalance(bumped, c.caller, c.value), target, c.value), c.gas, false, [])
  }

  function PlainMachine(hole: Address, intrinsic: u64, eoa: Address -> bool): Machine {
    Machine(
      (ctx: BlockCtx, w: World, c: Call) => PlainTransfer(hole, w, c),
      (tx: Tx) => Some(intrinsic),
      (a: Address, n: u64) => hole,
      eoa)
  }

  lemma PlainTransferPays(m: Machine, hole: Address, w: World, c: Call)
    requires Callable(m, w, c)
    ensures Total(PlainTransfer(hole, w, c).world) == Total(w)
  {
    var bumped := if c.to.None? && NonceOf(w, c.caller) + 1 < U64 then SetNonce(w, c.caller, NonceOf(w, c.caller) + 1) else w;
    assert Total(bumped) == Total(w) && BalanceOf(bumped, c.caller) == BalanceOf(w, c.caller);
    BalanceWithinTotal(w, c.caller);
    SubBalanceExact(bumped, c.caller, c.value);
    AddBalanceExact(SubBalance(bumped, c.caller, c.value), if c.to.Some? then c.to.value else hole, c.value);
  }

  lemma PlainTransferHonours(m: Machine, hole: Address, w: World, c: Call)
    requires Callable(m, w, c)
    ensures Honours(m, w, c, PlainTransfer(hole, w, c))
    ensures Total(PlainTransfer(hole, w, c).world) == Total(w)
  {
    hide Wrap256, BalanceOf, Total;
    PlainTransferPays(m, hole, w, c);
  }

  /** What is assumed of the EVM holds of one that only transfers value. */
  lemma PlainMachineBehaves(hole: Address, intrinsic: u64, eoa: Address -> bool)
    ensures WellBehaved(PlainMachine(hole, intrinsic, eoa)) && BurnsNothing(PlainMachine(hole, intrinsic, eoa))
  {
    var m := PlainMachine(hole, intrinsic, eoa);
    forall ctx: BlockCtx, w: World, c: Call | Callable(m, w, c)
      ensures Honours(m, w, c, m.run(ctx, w, c)) && Total(m.run(ctx, w, c).world) == Total(w)
    {
      PlainTransferHonours(m, hole, w, c);
    }
  }

  lemma NoBlocksYet(c: SysConfig, genesis: World)
    ensures BlocksOf(Boot(c.chain, map[], [], genesis).history) == []
  {
    ChainStoreProofs.StoredMetaExact([]);
    var n := Boot(c.chain, map[], [], genesis);
    assert n.history == [] + [ChainStore.PutGenesisRoot(RootAfter(c.chain, genesis))];
    HistorySnoc([], ChainStore.PutGenesisRoot(RootAfter(c.chain, genesis)));
  }

  lemma IndexedAtBoot(c: SysConfig, genesis: World)
    ensures IndexedFromOne(Boot(c.chain, map[], [], genesis).history)
  {
    ChainStoreProofs.StoredMetaExact([]);
  }

  lemma GenesisSound(c: SysConfig, genesis: World)
    requires SaveOk(c.chain, map[], genesis)
    ensures ChainSound(c, Persisted(genesis), Boot(c.chain, map[], [], genesis))
  {
    hide NodeOk;
    BootFounds(c.chain, genesis);
    IndexedAtBoot(c, genesis);
  }

  /**
    * A sequencer opened on an empty database satisfies the invariants that every run keeps,
    * on top of its genesis state, which holds no more than was allocated.
    */
  lemma GenesisStartOk(
    c: SysConfig, genesis: World, weight: real, maxSize: int, clock: nat,
    initialGas: u64, initialMaxTx: int, target: real)
    requires SaveOk(c.chain, map[], genesis)
    ensures var node := Boot(c.chain, map[], [], genesis);
            var a := Start(node, weight, maxSize, clock, initialGas, initialMaxTx, target);
            && SysOk(c, Persisted(genesis), a) && a.accepted == multiset{}
            && AllKept(a) && Batching.Tracked(a.sys.batcher)
            && (c.sizer.None? || AdaptiveSizer.InBounds(c.sizer.value, a.sys.core.size) ==> Controlled(c, a))
    ensures Total(Persisted(genesis)) <= Total(genesis)
    ensures WorldOk(c.chain.machine, genesis) ==> WorldOk(c.chain.machine, Persisted(genesis))
  {
    hide ChainSound, SysOk, Boot;
    var node := Boot(c.chain, map[], [], genesis);
    CommitDeletesExactly(genesis);
    GenesisSound(c, genesis);
    var a := Start(node, weight, maxSize, clock, initialGas, initialMaxTx, target);
    NoBlocksYet(c, genesis);
    assert a == a.(accepted := multiset(ChainLaws.TxsIn(BlocksOf(node.history))));
    StartOk(c, Persisted(genesis), node, weight, maxSize, clock, initialGas, initialMaxTx, target);
  }
}
