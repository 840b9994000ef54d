/** Verifiable compute receipts: the committed byte string, what it pins down, and the store. */
module Receipts {
  import opened Common
  import BigEndian
  import Merkle

  type Digest = Bytes -> Hash

  datatype ComputeReceipt = ComputeReceipt(
    txHash: Hash,
    blockNumber: u64,
    txIndex: u64,
    sender: Address,
    to: Option<Address>,
    value: Option<nat>,
    gasUsed: u64,
    gasPrice: nat,
    preStateRoot: Hash,
    postStateRoot: Hash,
    status: u64,
    inputHash: Hash,
    outputHash: Hash,
    logsHash: Hash,
    receiptHash: Hash,
    executedAt: nat)

  function ToBytes(r: ComputeReceipt): Bytes {
    if r.to.Some? then r.to.value else []
  }

  function ValueBytes(r: ComputeReceipt): Bytes {
    if r.value.Some? then BigEndian.Minimal(r.value.value) else []
  }

  /** The part of the string before recipient and value: 68 bytes. */
  function Head(r: ComputeReceipt): (b: Bytes)
    ensures |b| == 68
  {
    var hash: Bytes, sender: Bytes := r.txHash, r.sender;
    hash + BigEndian.Word(r.blockNumber) + BigEndian.Word(r.txIndex) + sender
  }

  /** The part after them: 176 bytes. */
  function Tail(r: ComputeReceipt): (b: Bytes)
    ensures |b| == 176
  {
    var pre: Bytes, post: Bytes := r.preStateRoot, r.postStateRoot;
    var input: Bytes, output: Bytes, logs: Bytes := r.inputHash, r.outputHash, r.logsHash;
    BigEndian.Word(r.gasUsed) + pre + post + BigEndian.Word(r.status) + input + output + logs
  }

  /** Recipient and value are written one after the other with nothing between them. */
  function Middle(r: ComputeReceipt): Bytes {
    ToBytes(r) + ValueBytes(r)
  }

  function CommitBytes(r: ComputeReceipt): Bytes {
    Head(r) + Middle(r) + Tail(r)
  }

  /**
    * What a commitment string holds and where: hash, block number, position and sender in the
    * first 68 bytes, gas, both state roots, status and the three content hashes in the last
    * 176, recipient and value in between.  Numbers are eight big-endian bytes.
    */
  lemma CommitLayout(r: ComputeReceipt)
    ensures var c, n := CommitBytes(r), |CommitBytes(r)|;
            && n == 244 + (if r.to.Some? then 20 else 0) + |ValueBytes(r)|
            && c[..32] == r.txHash && BigEndian.Value(c[32..40]) == r.blockNumber
            && BigEndian.Value(c[40..48]) == r.txIndex && c[48..68] == r.sender
            && (r.to.Some? ==> c[68..88] == r.to.value)
            && (r.value.Some? ==> BigEndian.Value(c[if r.to.Some? then 88 else 68..n - 176]) == r.value.value)
            && BigEndian.Value(c[n - 176..n - 168]) == r.gasUsed
            && c[n - 168..n - 136] == r.preStateRoot && c[n - 136..n - 104] == r.postStateRoot
            && BigEndian.Value(c[n - 104..n - 96]) == r.status
            && c[n - 96..n - 64] == r.inputHash && c[n - 64..n - 32] == r.outputHash && c[n - 32..] == r.logsHash
  {
    hide BigEndian.Value, BigEndian.Word, BigEndian.Minimal;
    var c, n := CommitBytes(r), |CommitBytes(r)|;
    assert c[..68] == Head(r) && c[n - 176..] == Tail(r) && c[68..n - 176] == Middle(r);
    HeadLayout(r);
    TailLayout(r);
    MiddleLayout(r);
    assert c[..68][..32] == c[..32] && c[..68][32..40] == c[32..40] && c[..68][40..48] == c[40..48];
    TailSlices(c, Tail(r));
    MiddleSlices(c, Middle(r));
  }

  lemma HeadLayout(r: ComputeReceipt)
    ensures var b := Head(r);
            && b[..32] == r.txHash && BigEndian.Value(b[32..40]) == r.blockNumber
            && BigEndian.Value(b[40..48]) == r.txIndex && b[48..] == r.sender
  {
    hide BigEndian.Value, BigEndian.Word;
    BigEndian.ValueOfWord(r.blockNumber);
    BigEndian.ValueOfWord(r.txIndex);
    var b := Head(r);
    assert b[32..40] == BigEndian.Word(r.blockNumber) && b[40..48] == BigEndian.Word(r.txIndex);
  }

  lemma TailLayout(r: ComputeReceipt)
    ensures var b := Tail(r);
            && BigEndian.Value(b[..8]) == r.gasUsed && b[8..40] == r.preStateRoot && b[40..72] == r.postStateRoot
            && BigEndian.Value(b[72..80]) == r.status
            && b[80..112] == r.inputHash && b[112..144] == r.outputHash && b[144..] == r.logsHash
  {
    hide BigEndian.Value, BigEndian.Word;
    BigEndian.ValueOfWord(r.gasUsed);
    BigEndian.ValueOfWord(r.status);
    var b := Tail(r);
    assert b[..8] == BigEndian.Word(r.gasUsed) && b[72..80] == BigEndian.Word(r.status);
  }

  lemma MiddleLayout(r: ComputeReceipt)
    ensures var b, k := Middle(r), if r.to.Some? then 20 else 0;
            && |b| == k + |ValueBytes(r)|
            && (r.to.Some? ==> b[..20] == r.to.value)
            && (r.value.Some? ==> BigEndian.Value(b[k..]) == r.value.value)
  {
    hide BigEndian.Value, BigEndian.Minimal;
    assert Middle(r)[|ToBytes(r)|..] == ValueBytes(r);
    if r.value.Some? {
      BigEndian.ValueOfMinimal(r.value.value);
    }
  }

  /** The slices of a string's last 176 bytes. */
  lemma TailSlices(c: Bytes, b: Bytes)
    requires |c| >= 176 && |b| == 176 && c[|c| - 176..] == b
    ensures var n := |c|;
            && c[n - 176..n - 168] == b[..8] && c[n - 168..n - 136] == b[8..40] && c[n - 136..n - 104] == b[40..72]
            && c[n - 104..n - 96] == b[72..80] && c[n - 96..n - 64] == b[80..112]
            && c[n - 64..n - 32] == b[112..144] && c[n - 32..] == b[144..]
  {}

  lemma MiddleSlices(c: Bytes, b: Bytes)
    requires |c| == 244 + |b| && c[68..|c| - 176] == b
    ensures |b| >= 20 ==> c[68..88] == b[..20] && c[88..|c| - 176] == b[20..]
    ensures c[68..|c| - 176] == b[0..]
  {}

  function ReceiptHashOf(sha: Digest, r: ComputeReceipt): Hash {
    sha(CommitBytes(r))
  }

  /** The receipt has not been tampered with. */
  predicate Verifies(sha: Digest, r: ComputeReceipt) {
    r.receiptHash == ReceiptHashOf(sha, r)
  }

  // ---------- what the string determines ----------

  lemma SplitAt(a: Bytes, b: Bytes, c: Bytes, d: Bytes)
    requires |a| == |c| && a + b == c + d
    ensures a == c && b == d
  {
    assert (a + b)[..|a|] == a && (c + d)[..|c|] == c;
    assert (a + b)[|a|..] == b && (c + d)[|c|..] == d;
  }

  ghost predicate SameHead(a: ComputeReceipt, b: ComputeReceipt) {
    a.txHash == b.txHash && a.blockNumber == b.blockNumber && a.txIndex == b.txIndex && a.sender == b.sender
  }

  ghost predicate SameTail(a: ComputeReceipt, b: ComputeReceipt) {
    && a.gasUsed == b.gasUsed && a.preStateRoot == b.preStateRoot && a.postStateRoot == b.postStateRoot
    && a.status == b.status && a.inputHash == b.inputHash && a.outputHash == b.outputHash && a.logsHash == b.logsHash
  }

  lemma HeadDetermines(a: ComputeReceipt, b: ComputeReceipt)
    ensures Head(a) == Head(b) <==> SameHead(a, b)
  {
    if Head(a) == Head(b) {
      var ha: Bytes, hb: Bytes := a.txHash, b.txHash;
      var na, nb := BigEndian.Word(a.blockNumber), BigEndian.Word(b.blockNumber);
      var ia, ib := BigEndian.Word(a.txIndex), BigEndian.Word(b.txIndex);
      SplitAt(ha + na + ia, a.sender, hb + nb + ib, b.sender);
      SplitAt(ha + na, ia, hb + nb, ib);
      SplitAt(ha, na, hb, nb);
      BigEndian.WordInjective(a.blockNumber, b.blockNumber);
      BigEndian.WordInjective(a.txIndex, b.txIndex);
    }
  }

  lemma TailDetermines(a: ComputeReceipt, b: ComputeReceipt)
    ensures Tail(a) == Tail(b) <==> SameTail(a, b)
  {
    if Tail(a) == Tail(b) {
      var ga, gb := BigEndian.Word(a.gasUsed), BigEndian.Word(b.gasUsed);
      var pa: Bytes, pb: Bytes := a.preStateRoot, b.preStateRoot;
      var qa: Bytes, qb: Bytes := a.postStateRoot, b.postStateRoot;
      var sa, sb := BigEndian.Word(a.status), BigEndian.Word(b.status);
      var ia: Bytes, ib: Bytes := a.inputHash, b.inputHash;
      var oa: Bytes, ob: Bytes := a.outputHash, b.outputHash;
      SplitAt(ga + pa + qa + sa + ia + oa, a.logsHash, gb + pb + qb + sb + ib + ob, b.logsHash);
      SplitAt(ga + pa + qa + sa + ia, oa, gb + pb + qb + sb + ib, ob);
      SplitAt(ga + pa + qa + sa, ia, gb + pb + qb + sb, ib);
      SplitAt(ga + pa + qa, sa, gb + pb + qb, sb);
      SplitAt(ga + pa, qa, gb + pb, qb);
      SplitAt(ga, pa, gb, pb);
      BigEndian.WordInjective(a.gasUsed, b.gasUsed);
      BigEndian.WordInjective(a.status, b.status);
    }
  }

  /** Exactly what equal commitments mean: every fixed-width field agrees, and so does recipient-then-value. */
  lemma CommitDetermines(a: ComputeReceipt, b: ComputeReceipt)
    ensures CommitBytes(a) == CommitBytes(b) <==> SameHead(a, b) && SameTail(a, b) && Middle(a) == Middle(b)
  {
    HeadDetermines(a, b);
    TailDetermines(a, b);
    if CommitBytes(a) == CommitBytes(b) {
      assert |Middle(a)| == |Middle(b)|;
      SplitAt(Head(a) + Middle(a), Tail(a), Head(b) + Middle(b), Tail(b));
      SplitAt(Head(a), Middle(a), Head(b), Middle(b));
    }
  }

  function Amount(r: ComputeReceipt): nat {
    if r.value.Some? then r.value.value else 0
  }

  /** Every committed field agrees (an absent value and zero are not distinguished). */
  ghost predicate SameCommitted(a: ComputeReceipt, b: ComputeReceipt) {
    SameHead(a, b) && SameTail(a, b) && a.to == b.to && Amount(a) == Amount(b)
  }

  lemma ValueBytesAre(r: ComputeReceipt)
    ensures ValueBytes(r) == BigEndian.Minimal(Amount(r))
  {}

  /** Between receipts that agree on whether there is a recipient, the string determines every committed field. */
  lemma CommitBinds(a: ComputeReceipt, b: ComputeReceipt)
    requires a.to.Some? <==> b.to.Some?
    ensures CommitBytes(a) == CommitBytes(b) <==> SameCommitted(a, b)
  {
    CommitDetermines(a, b);
    ValueBytesAre(a);
    ValueBytesAre(b);
    if Middle(a) == Middle(b) {
      SplitAt(ToBytes(a), ValueBytes(a), ToBytes(b), ValueBytes(b));
      BigEndian.MinimalInjective(Amount(a), Amount(b));
    }
  }

  /**
    * Without that agreement it does not: a call to an address that starts with a nonzero
    * byte commits to the same string as a creation whose value is that address followed
    * by the call's value.  These are the only such pairs.
    */
  lemma CreationCollides(call: ComputeReceipt, creation: ComputeReceipt)
    requires call.to.Some? && creation.to.None?
    ensures CommitBytes(call) == CommitBytes(creation) <==>
              && SameHead(call, creation) && SameTail(call, creation)
              && call.to.value[0] != 0 && Amount(creation) == BigEndian.Value(Middle(call))
  {
    hide CommitBytes, SameHead, SameTail, BigEndian.Value, BigEndian.Minimal;
    CommitDetermines(call, creation);
    ValueBytesAre(creation);
    assert Middle(creation) == ValueBytes(creation);
    assert Middle(call)[0] == call.to.value[0];
    IsMinimal(Middle(call), Amount(creation));
  }

  /** A non-empty string is the minimal one of a number exactly if it starts with no zero and has that value. */
  lemma IsMinimal(m: Bytes, n: nat)
    requires m != []
    ensures m == BigEndian.Minimal(n) <==> m[0] != 0 && n == BigEndian.Value(m)
  {
    BigEndian.ValueOfMinimal(n);
    if n > 0 {
      BigEndian.MinimalStartsNonzero(n);
    }
    if m[0] != 0 {
      BigEndian.MinimalOfValue(m);
    }
  }

  // ---------- a block's receipts ----------

  function HashesOf(rs: seq<ComputeReceipt>): seq<Hash> {
    seq(|rs|, i requires 0 <= i < |rs| => rs[i].receiptHash)
  }

  ghost function Committed(rs: seq<ComputeReceipt>): set<Bytes> {
    set r | r in rs :: CommitBytes(r)
  }

  /**
    * Two blocks with equally many verified receipts, agreeing position by position on
    * whether there is a recipient, and with equal Merkle roots, have the same committed
    * receipts in the same order, unless a hash collides on the strings actually hashed.
    */
  lemma BlockRootBinds(sha: Digest, keccak: Digest, rs: seq<ComputeReceipt>, ts: seq<ComputeReceipt>)
    requires |rs| == |ts|
    requires forall i :: 0 <= i < |rs| ==>
               Verifies(sha, rs[i]) && Verifies(sha, ts[i]) && (rs[i].to.Some? <==> ts[i].to.Some?)
    requires Merkle.Root(keccak, HashesOf(rs)) == Merkle.Root(keccak, HashesOf(ts))
    requires Merkle.NoCollision(keccak, Merkle.Hashed(keccak, HashesOf(rs)) + Merkle.Hashed(keccak, HashesOf(ts)))
    requires Merkle.NoCollision(sha, Committed(rs) + Committed(ts))
    ensures forall i :: 0 <= i < |rs| ==> SameCommitted(rs[i], ts[i])
  {
    hide Merkle.Root, Merkle.Hashed, SameCommitted, CommitBytes;
    Merkle.RootBinds(keccak, HashesOf(rs), HashesOf(ts));
    forall i | 0 <= i < |rs|
      ensures SameCommitted(rs[i], ts[i])
    {
      assert HashesOf(rs)[i] == HashesOf(ts)[i];
      assert CommitBytes(rs[i]) in Committed(rs) && CommitBytes(ts[i]) in Committed(ts);
      CommitBinds(rs[i], ts[i]);
    }
  }

  // ---------- the store ----------

  class ReceiptStore {
    var receipts: map<Hash, ComputeReceipt>
    var byBlock: map<u64, seq<ComputeReceipt>>

    constructor ()
      ensures receipts == map[] && byBlock == map[]
    {
      receipts, byBlock := map[], map[];
    }

    function OfBlock(n: u64): seq<ComputeReceipt>
      reads this
    {
      if n in byBlock then byBlock[n] else []
    }

    method Store(r: ComputeReceipt)
      modifies this
      ensures receipts == old(receipts)[r.txHash := r]
      ensures OfBlock(r.blockNumber) == old(OfBlock(r.blockNumber)) + [r]
      ensures forall n :: n != r.blockNumber ==> OfBlock(n) == old(OfBlock(n))
    {
      receipts := receipts[r.txHash := r];
      byBlock := byBlock[r.blockNumber := OfBlock(r.blockNumber) + [r]];
    }

    method ComputeBlockReceiptRoot(keccak: Digest, blockNumber: u64) returns (root: Hash)
      ensures root == Merkle.TreeHash(keccak, HashesOf(OfBlock(blockNumber)))
    {
      var rs := OfBlock(blockNumber);
      Merkle.RootIsTreeHash(keccak, HashesOf(rs));
      if |rs| == 0 {
        return ZERO_HASH;
      }
      var hashes: seq<Hash> := [];
      for i := 0 to |rs|
        invariant hashes == HashesOf(rs[..i])
      {
        hashes := hashes + [rs[i].receiptHash];
        assert rs[..i + 1] == rs[..i] + [rs[i]];
      }
      assert rs[..|rs|] == rs;
      root := Merkle.ComputeMerkleRoot(keccak, hashes);
    }
  }
}
