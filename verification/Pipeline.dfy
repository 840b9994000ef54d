/**
  * The sequencer as one state machine: RPC submissions, the steps of block production and
  * the steps of batch submission, interleaved in any order.  Each step is what happens
  * under one lock.
  */
module Pipeline {
  import opened Common
  import opened Transactions
  import opened LanePool
  import LaneConservation
  import opened Producing
  import FeeModel
  import AdaptiveSizer
  import opened ChainStore
  import opened ChainState
  import opened Batching

  datatype SysConfig = SysConfig(chain: Config, maxTx: int, maxGas: u64, sizer: Option<AdaptiveSizer.SizerConfig>)

  /** What the producer works on; `size` counts only if there is a sizer. */
  datatype Core = Core(pool: Pool, node: Node, fee: FeeModel.Fee, size: AdaptiveSizer.Size)

  /** Between its steps the producer holds a popped batch, or entries still to put back. */
  datatype Flight =
    | Idle
    | Popped(batch: seq<TxMeta>, gasLimit: u64)
    | Returning(queue: seq<Entry>, usage: Option<FeeModel.Usage>)

  // ---------- the producer's steps ----------

  function MaxTx(c: SysConfig, core: Core): int {
    if c.sizer.Some? then core.size.maxTx else c.maxTx
  }

  function GasLimit(c: SysConfig, core: Core): u64 {
    if c.sizer.Some? then core.size.gasLimit else c.maxGas
  }

  function PopStep(c: SysConfig, core: Core): (Core, Flight) {
    var popped := PopBatch(core.pool, MaxTx(c, core), GasLimit(c, core));
    (core.(pool := popped.pool), Popped(popped.batch, GasLimit(c, core)))
  }

  /** What goes back to the pool: the skipped ones as they were, or after an error everything, anonymously. */
  function FlightAfter(batch: seq<TxMeta>, gasLimit: u64, o: Outcome): Flight {
    match o
    case Failed => Returning(Anonymous(LaneConservation.TxsOf(batch)), None)
    case Produced(block, skipped) =>
      Returning(Returned(batch, skipped), Some(FeeModel.Usage(block.header.gasUsed, gasLimit)))
  }

  /** `None` is the nil header on which the process ends. */
  function CommitStep(
    c: SysConfig, core: Core, batch: seq<TxMeta>, gasLimit: u64, timestamp: u64, commitOk: bool, writeOk: bool)
    : Option<(Core, Flight, Outcome)>
  {
    match ProduceNext(c.chain, core.node, LaneConservation.TxsOf(batch), timestamp, core.fee.baseFee, commitOk, writeOk)
    case None => None
    case Some(r) => Some((core.(node := r.node), FlightAfter(batch, gasLimit, r.outcome), r.outcome))
  }

  /** The controllers move only when a block was produced. */
  function FinishStep(c: SysConfig, core: Core, usage: Option<FeeModel.Usage>): Core {
    match usage
    case None => core
    case Some(u) =>
      core.(fee := FeeModel.Adjust(core.fee, u.gasUsed, u.gasLimit),
            size := if c.sizer.Some? then AdaptiveSizer.Adjust(c.sizer.value, core.size, u.gasUsed, u.gasLimit) else core.size)
  }

  /** One call of produceBlock with nothing in between. */
  function ProduceBlock(c: SysConfig, core: Core, timestamp: u64, commitOk: bool, writeOk: bool): Option<(Core, Outcome)> {
    var (popped, flight) := PopStep(c, core);
    var committed := CommitStep(c, popped, flight.batch, flight.gasLimit, timestamp, commitOk, writeOk);
    match committed
    case None => None
    case Some((done, back, outcome)) =>
      Some((FinishStep(c, done.(pool := ReAdd(done.pool, back.queue)), back.usage), outcome))
  }

  // ---------- the whole machine ----------

  datatype Sys = Sys(core: Core, flight: Flight, batcher: Batcher, frame: Option<BatchFrame>, halted: bool)

  /** The system with an account of its transactions: accepted by RPC, lost to a full pool, or dropped as repeats. */
  datatype Audited = Audited(sys: Sys, accepted: multiset<Tx>, lost: multiset<Tx>, repeated: multiset<Tx>)

  datatype Event =
    | Submit(entry: Entry)
    | Pop
    | Commit(timestamp: u64, commitOk: bool, writeOk: bool)
    | PutBackOne
    | Finish
    | Collect
    | Observe(origin: L1Origin, writeOk: bool)
    | Send(l1TxHash: Option<Hash>, size: nat, writeOk: bool)
    | Poll(answers: Answers)

  function SubmitTo(a: Audited, e: Entry): Audited {
    var core := a.sys.core;
    a.(sys := a.sys.(core := core.(pool := AddEntry(core.pool, e))),
       accepted := if AddOutcome(core.pool, e.tx) == Added then a.accepted + multiset{e.tx} else a.accepted)
  }

  function PutBackNext(a: Audited): Audited
    requires a.sys.flight.Returning? && a.sys.flight.queue != []
  {
    var core, e := a.sys.core, a.sys.flight.queue[0];
    var sys := a.sys.(core := core.(pool := AddEntry(core.pool, e)),
                      flight := a.sys.flight.(queue := a.sys.flight.queue[1..]));
    match AddOutcome(core.pool, e.tx)
    case Added => a.(sys := sys)
    case AlreadyKnown => a.(sys := sys, repeated := a.repeated + multiset{e.tx})
    case PoolFull => a.(sys := sys, lost := a.lost + multiset{e.tx})
  }

  function CommitOf(c: SysConfig, sys: Sys, timestamp: u64, commitOk: bool, writeOk: bool): Sys
    requires sys.flight.Popped?
  {
    match CommitStep(c, sys.core, sys.flight.batch, sys.flight.gasLimit, timestamp, commitOk, writeOk)
    case None => sys.(halted := true)
    case Some((core, flight, _)) => sys.(core := core, flight := flight)
  }

  /** A record that is not a block ends the process here as well. */
  function CollectOf(sys: Sys): Sys {
    match NextFrame(sys.batcher, sys.core.node)
    case Missing => sys
    case Found(f) => sys.(frame := Some(f))
    case Corrupt => sys.(halted := true)
  }

  function SendOf(sys: Sys, l1TxHash: Option<Hash>, size: nat, writeOk: bool): Sys
    requires sys.frame.Some?
  {
    if l1TxHash.None? then sys.(frame := None)
    else
      var record := RecordOf(sys.batcher, sys.frame.value, l1TxHash.value, size);
      sys.(batcher := Advance(sys.batcher, sys.frame.value, l1TxHash.value, size), frame := None,
           core := sys.core.(node := AddBatch(sys.core.node, record, writeOk)))
  }

  /** A step that is not enabled changes nothing. */
  function Step(c: SysConfig, a: Audited, e: Event): Audited {
    var sys := a.sys;
    if sys.halted then a
    else
      match e
      case Submit(entry) => SubmitTo(a, entry)
      case Pop =>
        if !sys.flight.Idle? then a
        else a.(sys := sys.(core := PopStep(c, sys.core).0, flight := PopStep(c, sys.core).1))
      case Commit(timestamp, commitOk, writeOk) =>
        if !sys.flight.Popped? then a else a.(sys := CommitOf(c, sys, timestamp, commitOk, writeOk))
      case PutBackOne =>
        if sys.flight.Returning? && sys.flight.queue != [] then PutBackNext(a) else a
      case Finish =>
        if sys.flight.Returning? && sys.flight.queue == [] then
          a.(sys := sys.(core := FinishStep(c, sys.core, sys.flight.usage), flight := Idle))
        else a
      case Collect =>
        if sys.frame.Some? then a else a.(sys := CollectOf(sys))
      case Observe(origin, writeOk) =>
        if sys.frame.None? then a
        else a.(sys := sys.(core := sys.core.(node := SetL1Origin(sys.core.node, origin, writeOk))))
      case Send(l1TxHash, size, writeOk) =>
        if sys.frame.None? then a else a.(sys := SendOf(sys, l1TxHash, size, writeOk))
      case Poll(answers) =>
        if sys.frame.Some? then a else a.(sys := sys.(batcher := Confirm(sys.batcher, answers)))
  }

  function Run(c: SysConfig, a: Audited, es: seq<Event>): Audited {
    if es == [] then a else Step(c, Run(c, a, es[..|es| - 1]), es[|es| - 1])
  }

  /** A sequencer just started on a node, with nothing queued. */
  function Start(node: Node, weight: real, maxSize: int, clock: nat, initialGas: u64, initialMaxTx: int, target: real): Audited {
    Audited(
      Sys(
        Core(Empty(weight, maxSize, clock), node, FeeModel.START, AdaptiveSizer.Size(initialGas, initialMaxTx, target)),
        Idle, NEW_BATCHER, None, false),
      multiset{}, multiset{}, multiset{})
  }
}
