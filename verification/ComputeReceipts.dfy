/** Making compute receipts: the hasher is fed field by field, and so are the logs. */
module ComputeReceipts {
  import opened Common
  import opened Transactions
  import opened Execution
  import opened Receipts
  import BigEndian
  import Merkle

  function TopicBytes(topics: seq<Hash>): Bytes {
    if topics == [] then []
    else
      var last: Bytes := topics[|topics| - 1];
      TopicBytes(topics[..|topics| - 1]) + last
  }

  /** Emitter, topics and data, one after the other, with no lengths. */
  function LogBytes(l: LogData): Bytes {
    var emitter: Bytes := l.emitter;
    emitter + TopicBytes(l.topics) + l.data
  }

  function LogsBytes(logs: seq<Log>): Bytes {
    if logs == [] then [] else LogsBytes(logs[..|logs| - 1]) + LogBytes(logs[|logs| - 1].entry)
  }

  function LogsHash(sha: Digest, logs: seq<Log>): Hash {
    if logs == [] then ZERO_HASH else sha(LogsBytes(logs))
  }

  // ---------- what the logs hash determines ----------

  /** How many topics and how many bytes of data: what the string does not record. */
  datatype LogShape = LogShape(topics: nat, data: nat)

  function ShapeOf(logs: seq<Log>): (shape: seq<LogShape>)
    ensures |shape| == |logs|
  {
    seq(|logs|, i requires 0 <= i < |logs| => LogShape(|logs[i].entry.topics|, |logs[i].entry.data|))
  }

  function EntriesOf(logs: seq<Log>): (entries: seq<LogData>)
    ensures |entries| == |logs|
  {
    seq(|logs|, i requires 0 <= i < |logs| => logs[i].entry)
  }

  function ByteLength(shape: seq<LogShape>): nat {
    if shape == [] then 0
    else
      var last := shape[|shape| - 1];
      ByteLength(shape[..|shape| - 1]) + 20 + 32 * last.topics + last.data
  }

  lemma {:induction false} TopicLength(topics: seq<Hash>)
    ensures |TopicBytes(topics)| == 32 * |topics|
  {
    if topics != [] {
      TopicLength(topics[..|topics| - 1]);
    }
  }

  lemma ByteLengthSnoc(shape: seq<LogShape>, last: LogShape)
    ensures ByteLength(shape + [last]) == ByteLength(shape) + (20 + 32 * last.topics + last.data)
  {
    assert (shape + [last])[..|shape|] == shape;
  }

  lemma LogLength(l: LogData)
    ensures |LogBytes(l)| == 20 + 32 * |l.topics| + |l.data|
  {
    TopicLength(l.topics);
  }

  lemma ShapeSnoc(logs: seq<Log>)
    requires logs != []
    ensures var front, l := logs[..|logs| - 1], logs[|logs| - 1].entry;
            && ShapeOf(logs) == ShapeOf(front) + [LogShape(|l.topics|, |l.data|)]
            && EntriesOf(logs) == EntriesOf(front) + [l]
            && LogsBytes(logs) == LogsBytes(front) + LogBytes(l)
  {}

  lemma {:induction false} LengthIsShape(logs: seq<Log>)
    ensures |LogsBytes(logs)| == ByteLength(ShapeOf(logs))
  {
    if logs != [] {
      hide ShapeOf, LogsBytes, LogBytes, ByteLength;
      var front, l := logs[..|logs| - 1], logs[|logs| - 1].entry;
      ShapeSnoc(logs);
      LengthIsShape(front);
      LogLength(l);
      ByteLengthSnoc(ShapeOf(front), LogShape(|l.topics|, |l.data|));
    }
  }

  lemma {:induction false} TopicsBind(a: seq<Hash>, b: seq<Hash>)
    requires |a| == |b|
    ensures TopicBytes(a) == TopicBytes(b) <==> a == b
  {
    if a != [] && TopicBytes(a) == TopicBytes(b) {
      var fa, fb := a[..|a| - 1], b[..|b| - 1];
      var la: Bytes, lb: Bytes := a[|a| - 1], b[|b| - 1];
      TopicLength(fa);
      TopicLength(fb);
      SplitAt(TopicBytes(fa), la, TopicBytes(fb), lb);
      TopicsBind(fa, fb);
      assert a == fa + [a[|a| - 1]] && b == fb + [b[|b| - 1]];
    }
  }

  lemma LogBinds(a: LogData, b: LogData)
    requires |a.topics| == |b.topics| && |a.data| == |b.data|
    ensures LogBytes(a) == LogBytes(b) <==> a == b
  {
    if LogBytes(a) == LogBytes(b) {
      var ea: Bytes, eb: Bytes := a.emitter, b.emitter;
      TopicLength(a.topics);
      TopicLength(b.topics);
      SplitAt(ea + TopicBytes(a.topics), a.data, eb + TopicBytes(b.topics), b.data);
      SplitAt(ea, TopicBytes(a.topics), eb, TopicBytes(b.topics));
      TopicsBind(a.topics, b.topics);
    }
  }

  lemma LastEqual<T>(a: seq<T>, x: T, b: seq<T>, y: T)
    requires |a| == |b|
    ensures a + [x] == b + [y] <==> a == b && x == y
  {
    if a + [x] == b + [y] {
      assert (a + [x])[..|a|] == a && (b + [y])[..|b|] == b;
      assert (a + [x])[|a|] == x && (b + [y])[|b|] == y;
    }
  }

  /** Between lists of logs of one shape the hashed string determines every log. */
  lemma {:induction false} LogsBind(a: seq<Log>, b: seq<Log>)
    requires ShapeOf(a) == ShapeOf(b)
    ensures LogsBytes(a) == LogsBytes(b) <==> EntriesOf(a) == EntriesOf(b)
  {
    assert |a| == |ShapeOf(a)| == |ShapeOf(b)| == |b|;
    if a != [] {
      hide ShapeOf, EntriesOf, LogsBytes, LogBytes;
      var n := |a| - 1;
      var fa, fb, la, lb := a[..n], b[..n], a[n].entry, b[n].entry;
      ShapeSnoc(a);
      ShapeSnoc(b);
      LastEqual(ShapeOf(fa), LogShape(|la.topics|, |la.data|), ShapeOf(fb), LogShape(|lb.topics|, |lb.data|));
      LastEqual(EntriesOf(fa), la, EntriesOf(fb), lb);
      LogsBind(fa, fb);
      LogBinds(la, lb);
      LengthIsShape(fa);
      LengthIsShape(fb);
      if LogsBytes(a) == LogsBytes(b) {
        SplitAt(LogsBytes(fa), LogBytes(la), LogsBytes(fb), LogBytes(lb));
      }
    }
  }

  /** So does the logs hash, unless it collides on the two strings hashed. */
  lemma LogsHashBinds(sha: Digest, a: seq<Log>, b: seq<Log>)
    requires ShapeOf(a) == ShapeOf(b) && Merkle.NoCollision(sha, {LogsBytes(a), LogsBytes(b)})
    ensures LogsHash(sha, a) == LogsHash(sha, b) <==> EntriesOf(a) == EntriesOf(b)
  {
    LogsBind(a, b);
    assert |ShapeOf(a)| == |ShapeOf(b)|;
    assert LogsBytes(a) in {LogsBytes(a), LogsBytes(b)} && LogsBytes(b) in {LogsBytes(a), LogsBytes(b)};
  }

  /** Two blocks as in Receipts.BlockRootBinds whose logs have one shape also have the same logs. */
  lemma BlockRootBindsLogs(
    sha: Digest, keccak: Digest, rs: seq<ComputeReceipt>, ts: seq<ComputeReceipt>,
    rLogs: seq<seq<Log>>, tLogs: seq<seq<Log>>, i: nat)
    requires i < |rs| == |ts| == |rLogs| == |tLogs|
    requires forall i :: 0 <= i < |rs| ==>
               Verifies(sha, rs[i]) && Verifies(sha, ts[i]) && (rs[i].to.Some? <==> ts[i].to.Some?)
    requires Merkle.Root(keccak, HashesOf(rs)) == Merkle.Root(keccak, HashesOf(ts))
    requires Merkle.NoCollision(keccak, Merkle.Hashed(keccak, HashesOf(rs)) + Merkle.Hashed(keccak, HashesOf(ts)))
    requires Merkle.NoCollision(sha, Committed(rs) + Committed(ts))
    requires rs[i].logsHash == LogsHash(sha, rLogs[i]) && ts[i].logsHash == LogsHash(sha, tLogs[i])
    requires ShapeOf(rLogs[i]) == ShapeOf(tLogs[i])
    requires Merkle.NoCollision(sha, {LogsBytes(rLogs[i]), LogsBytes(tLogs[i])})
    ensures EntriesOf(rLogs[i]) == EntriesOf(tLogs[i])
  {
    BlockRootBinds(sha, keccak, rs, ts);
    assert SameCommitted(rs[i], ts[i]);
    LogsHashBinds(sha, rLogs[i], tLogs[i]);
  }

  function ZeroLog(shape: LogShape): (l: Log)
    ensures ShapeOf([l]) == [shape]
  {
    Log(LogData(seq(20, _ => 0), seq(shape.topics, _ => ZERO_HASH), seq(shape.data, _ => 0)), 0, 0)
  }

  function ZeroLogs(shape: seq<LogShape>): (logs: seq<Log>)
    ensures ShapeOf(logs) == shape
  {
    seq(|shape|, i requires 0 <= i < |shape| => ZeroLog(shape[i]))
  }

  predicate AllZero(b: Bytes) {
    forall i :: 0 <= i < |b| ==> b[i] == 0
  }

  lemma {:induction false} ZeroTopics(topics: seq<Hash>)
    requires forall t :: t in topics ==> t == ZERO_HASH
    ensures AllZero(TopicBytes(topics))
  {
    if topics != [] {
      var front := topics[..|topics| - 1];
      assert forall t :: t in front ==> t in topics;
      ZeroTopics(front);
      var last: Bytes := topics[|topics| - 1];
      assert topics[|topics| - 1] in topics && AllZero(last);
    }
  }

  lemma {:induction false} ZeroLogsAreZero(logs: seq<Log>)
    requires forall l :: l in logs ==>
               AllZero(l.entry.emitter) && AllZero(l.entry.data) && forall t :: t in l.entry.topics ==> t == ZERO_HASH
    ensures AllZero(LogsBytes(logs))
  {
    if logs != [] {
      ZeroLogsAreZero(logs[..|logs| - 1]);
      ZeroTopics(logs[|logs| - 1].entry.topics);
    }
  }

  lemma ZeroShapesCollide(s: seq<LogShape>, t: seq<LogShape>)
    requires ByteLength(s) == ByteLength(t)
    ensures LogsBytes(ZeroLogs(s)) == LogsBytes(ZeroLogs(t))
  {
    LengthIsShape(ZeroLogs(s));
    LengthIsShape(ZeroLogs(t));
    ZeroLogsAreZero(ZeroLogs(s));
    ZeroLogsAreZero(ZeroLogs(t));
  }

  /** Two lists of logs with the given shapes and different entries are hashed as the same string. */
  ghost predicate Confused(s: seq<LogShape>, t: seq<LogShape>, a: seq<Log>, b: seq<Log>) {
    ShapeOf(a) == s && ShapeOf(b) == t && EntriesOf(a) != EntriesOf(b) && LogsBytes(a) == LogsBytes(b)
  }

  /**
    * Exactly when the hashed string does not determine the logs: two shapes can be confused
    * if and only if they differ and take equally many bytes in all.
    */
  lemma LogsConfusedExactly(s: seq<LogShape>, t: seq<LogShape>)
    ensures (exists a, b :: Confused(s, t, a, b)) <==> s != t && ByteLength(s) == ByteLength(t)
  {
    if s != t && ByteLength(s) == ByteLength(t) {
      var a, b := ZeroLogs(s), ZeroLogs(t);
      ZeroShapesCollide(s, t);
      EntriesGiveShape(a, b);
      assert Confused(s, t, a, b);
    }
    forall a, b | Confused(s, t, a, b)
      ensures s != t && ByteLength(s) == ByteLength(t)
    {
      LengthIsShape(a);
      LengthIsShape(b);
      if s == t {
        LogsBind(a, b);
      }
    }
  }

  lemma EntriesGiveShape(a: seq<Log>, b: seq<Log>)
    ensures EntriesOf(a) == EntriesOf(b) ==> ShapeOf(a) == ShapeOf(b)
  {
    if EntriesOf(a) == EntriesOf(b) {
      assert |a| == |EntriesOf(a)| == |EntriesOf(b)| == |b|;
      forall i | 0 <= i < |a|
        ensures ShapeOf(a)[i] == ShapeOf(b)[i]
      {
        assert EntriesOf(a)[i] == EntriesOf(b)[i];
      }
    }
  }

  /** The plainest confusion, for any log with a topic: the last topic and the start of the data are indistinguishable. */
  lemma LogsHashAmbiguous(sha: Digest, l: LogData, txIndex: nat, index: nat)
    requires l.topics != []
    ensures var last: Bytes := l.topics[|l.topics| - 1];
            var moved := LogData(l.emitter, l.topics[..|l.topics| - 1], last + l.data);
            && moved != l
            && LogsHash(sha, [Log(moved, txIndex, index)]) == LogsHash(sha, [Log(l, txIndex, index)])
  {
    var last: Bytes := l.topics[|l.topics| - 1];
    var front := l.topics[..|l.topics| - 1];
    var moved := LogData(l.emitter, front, last + l.data);
    var emitter: Bytes := l.emitter;
    assert |moved.topics| != |l.topics|;
    assert emitter + TopicBytes(front) + (last + l.data) == emitter + (TopicBytes(front) + last) + l.data;
    assert LogBytes(moved) == LogBytes(l);
    OneLog(Log(moved, txIndex, index));
    OneLog(Log(l, txIndex, index));
  }

  lemma OneLog(l: Log)
    ensures LogsBytes([l]) == LogBytes(l.entry)
  {
    assert [l][..0] == [];
  }

  // ---------- creation ----------

  /** The receipt the producer stores for the transaction at a position of a block. */
  function ReceiptFor(
    sha: Digest, keccak: Digest, tx: Tx, r: Receipt, number: u64, index: u64, pre: Hash, post: Hash, now: nat)
    : ComputeReceipt
  {
    var sender := if tx.from.Some? then tx.from.value else seq(20, i => 0);
    var unsigned := ComputeReceipt(
      tx.hash, number, index, sender, tx.to, Some(tx.value), r.gasUsed, tx.gasPrice, pre, post,
      if r.success then 1 else 0, keccak(tx.data), keccak([]), LogsHash(sha, r.logs), ZERO_HASH, now);
    unsigned.(receiptHash := ReceiptHashOf(sha, unsigned))
  }

  method ComputeLogsHash(sha: Digest, logs: seq<Log>) returns (h: Hash)
    ensures h == LogsHash(sha, logs)
  {
    if |logs| == 0 {
      return ZERO_HASH;
    }
    var written: Bytes := [];
    for i := 0 to |logs|
      invariant written == LogsBytes(logs[..i])
    {
      var l := logs[i].entry;
      assert logs[..i + 1][..i] == logs[..i];
      ghost var before := written;
      var emitter: Bytes := l.emitter;
      written := written + emitter;
      for j := 0 to |l.topics|
        invariant written == before + (emitter + TopicBytes(l.topics[..j]))
      {
        var topic: Bytes := l.topics[j];
        assert l.topics[..j + 1][..j] == l.topics[..j];
        assert emitter + TopicBytes(l.topics[..j + 1]) == emitter + TopicBytes(l.topics[..j]) + topic;
        written := written + topic;
      }
      assert l.topics[..|l.topics|] == l.topics;
      written := written + l.data;
      assert written == before + LogBytes(l);
    }
    assert logs[..|logs|] == logs;
    h := sha(written);
  }

  /** Feeds the hasher field by field; recipient and value are written only if present. */
  method ComputeHash(sha: Digest, r: ComputeReceipt) returns (h: Hash)
    ensures h == ReceiptHashOf(sha, r)
  {
    hide BigEndian.Word;
    var txHash: Bytes, sender: Bytes := r.txHash, r.sender;
    var pre: Bytes, post: Bytes := r.preStateRoot, r.postStateRoot;
    var input: Bytes, output: Bytes, logs: Bytes := r.inputHash, r.outputHash, r.logsHash;
    var written := txHash + BigEndian.Word(r.blockNumber) + BigEndian.Word(r.txIndex) + sender;
    assert written == Head(r);
    if r.to.Some? {
      var to: Bytes := r.to.value;
      written := written + to;
    }
    assert written == Head(r) + ToBytes(r);
    if r.value.Some? {
      written := written + BigEndian.Minimal(r.value.value);
    }
    assert written == Head(r) + ToBytes(r) + ValueBytes(r) == Head(r) + Middle(r);
    var rest := BigEndian.Word(r.gasUsed) + pre + post + BigEndian.Word(r.status) + input + output + logs;
    assert rest == Tail(r);
    h := sha(written + rest);
  }

  /** A created receipt verifies. */
  method CreateReceipt(
    sha: Digest, keccak: Digest, tx: Tx, r: Receipt, number: u64, index: u64, pre: Hash, post: Hash, now: nat)
    returns (cr: ComputeReceipt)
    ensures cr == ReceiptFor(sha, keccak, tx, r, number, index, pre, post, now)
    ensures Verifies(sha, cr)
  {
    var sender: Address := seq(20, i => 0);
    if tx.from.Some? {
      sender := tx.from.value;
    }
    var logsHash := ComputeLogsHash(sha, r.logs);
    cr := ComputeReceipt(
      tx.hash, number, index, sender, tx.to, Some(tx.value), r.gasUsed, tx.gasPrice, pre, post,
      if r.success then 1 else 0, keccak(tx.data), keccak([]), logsHash, ZERO_HASH, now);
    var h := ComputeHash(sha, cr);
    cr := cr.(receiptHash := h);
  }
}
