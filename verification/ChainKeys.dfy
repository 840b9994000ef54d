/** The key scheme of the chain database, and exactly when two keys coincide. */
module ChainKeys {
  import opened Common
  import opened BigEndian

  datatype ChainKey =
    | BlockKey(number: u64)
    | BlockHashKey(hash: Hash)
    | ReceiptKey(txHash: Hash)
    | TxKey(txHash: Hash)
    | TxBlockKey(txHash: Hash)
    | BatchKey(index: u64)
    | CurrentBlockKey
    | LatestRootKey
    | LatestBatchKey
    | GenesisRootKey
    | L1OriginKey

  function Ascii(s: string): (b: Bytes)
    ensures |b| == |s|
  {
    seq(|s|, i requires 0 <= i < |s| => s[i] as int % 256)
  }

  function WithHash(prefix: Bytes, h: Hash): (b: Bytes)
    ensures |b| == |prefix| + 32
  {
    prefix + h
  }

  function Encode(k: ChainKey): Bytes {
    match k
    case BlockKey(n) => Ascii("b") + Minimal(n)
    case BlockHashKey(h) => WithHash(Ascii("h"), h)
    case ReceiptKey(h) => WithHash(Ascii("r"), h)
    case TxKey(h) => WithHash(Ascii("t"), h)
    case TxBlockKey(h) => WithHash(Ascii("tb"), h)
    case BatchKey(i) => Ascii("bt") + Minimal(i)
    case CurrentBlockKey => Ascii("current-block")
    case LatestRootKey => Ascii("latest-root")
    case LatestBatchKey => Ascii("latest-batch-index")
    case GenesisRootKey => Ascii("genesis-root")
    case L1OriginKey => Ascii("l1-origin")
  }

  /** Block number n is the byte 0x74 followed by the bytes of batch index i. */
  predicate Clash(n: u64, i: u64) {
    n == 0x74 * Pow256(|Minimal(i)|) + i
  }

  predicate Aliases(a: ChainKey, b: ChainKey) {
    || a == b
    || (a.BlockKey? && b.BatchKey? && Clash(a.number, b.index))
    || (a.BatchKey? && b.BlockKey? && Clash(b.number, a.index))
  }

  /** First byte and, where it is fixed, length: enough to tell all classes apart but blocks and batches. */
  lemma Shape(k: ChainKey)
    ensures Encode(k) != []
    ensures var c, n := Encode(k)[0], |Encode(k)|;
            match k
            case BlockKey(_) => c == 0x62
            case BatchKey(_) => c == 0x62 && n >= 2
            case BlockHashKey(_) => c == 0x68 && n == 33
            case ReceiptKey(_) => c == 0x72 && n == 33
            case TxKey(_) => c == 0x74 && n == 33
            case TxBlockKey(_) => c == 0x74 && n == 34
            case CurrentBlockKey => c == 0x63 && n == 13
            case LatestRootKey => c == 0x6c && n == 11
            case LatestBatchKey => c == 0x6c && n == 18
            case GenesisRootKey => c == 0x67 && n == 12
            case L1OriginKey => c == 0x6c && n == 9
  {
    assert Ascii("b")[0] == 0x62 && Ascii("h")[0] == 0x68 && Ascii("r")[0] == 0x72 && Ascii("t")[0] == 0x74;
    assert Ascii("tb")[0] == 0x74 && Ascii("bt")[0] == 0x62;
    assert Ascii("current-block")[0] == 0x63 && Ascii("latest-root")[0] == 0x6c;
    assert Ascii("latest-batch-index")[0] == 0x6c && Ascii("genesis-root")[0] == 0x67;
    assert Ascii("l1-origin")[0] == 0x6c;
  }

  lemma PrefixInjective(p: Bytes, a: Bytes, b: Bytes)
    ensures p + a == p + b ==> a == b
  {
    assert (p + a)[|p|..] == a && (p + b)[|p|..] == b;
  }

  lemma BlockBatchClash(n: u64, i: u64)
    ensures Encode(BlockKey(n)) == Encode(BatchKey(i)) <==> Clash(n, i)
  {
    var m: Bytes := [0x74] + Minimal(i);
    BatchKeyBytes(i);
    PrefixInjective(Ascii("b"), Minimal(n), m);
    MinimalIs(n, m);
    ValuePrepend(0x74, Minimal(i));
    ValueOfMinimal(i);
  }

  lemma BatchKeyBytes(i: u64)
    ensures Encode(BatchKey(i)) == Ascii("b") + ([0x74] + Minimal(i))
  {
    assert Ascii("bt") == Ascii("b") + [0x74];
  }

  lemma MinimalIs(n: nat, m: Bytes)
    requires m != [] && m[0] != 0
    ensures Minimal(n) == m <==> n == Value(m)
  {
    ValueOfMinimal(n);
    MinimalOfValue(m);
  }

  lemma HashKeysInjective(p: Bytes, a: Hash, b: Hash)
    ensures WithHash(p, a) == WithHash(p, b) <==> a == b
  {
    PrefixInjective(p, a, b);
  }

  /**
    * Keys of the scheme coincide exactly when they are the same key, or a block number
    * and a batch index that clash; the smallest clash with a real batch is block 29697
    * with batch 1.
    */
  lemma KeysCollideExactly(a: ChainKey, b: ChainKey)
    ensures Encode(a) == Encode(b) <==> Aliases(a, b)
  {
    Shape(a);
    Shape(b);
    match a {
      case BlockKey(n) =>
        match b {
          case BlockKey(m) => PrefixInjective(Ascii("b"), Minimal(n), Minimal(m)); MinimalInjective(n, m);
          case BatchKey(i) => BlockBatchClash(n, i);
          case _ =>
        }
      case BatchKey(i) =>
        match b {
          case BlockKey(n) => BlockBatchClash(n, i);
          case BatchKey(j) => PrefixInjective(Ascii("bt"), Minimal(i), Minimal(j)); MinimalInjective(i, j);
          case _ =>
        }
      case BlockHashKey(h) => if b.BlockHashKey? { HashKeysInjective(Ascii("h"), h, b.hash); }
      case ReceiptKey(h) => if b.ReceiptKey? { HashKeysInjective(Ascii("r"), h, b.txHash); }
      case TxKey(h) => if b.TxKey? { HashKeysInjective(Ascii("t"), h, b.txHash); }
      case TxBlockKey(h) => if b.TxBlockKey? { HashKeysInjective(Ascii("tb"), h, b.txHash); }
      case _ =>
    }
  }

  lemma FirstClash(i: u64, n: u64)
    requires i >= 1
    ensures Clash(29697, 1)
    ensures Clash(n, i) ==> n >= 29697
  {
    assert Minimal(1) == [1] by {
      assert Minimal(0) == [];
    }
    assert Pow256(1) == 256;
    if Clash(n, i) {
      MinimalStartsNonzero(i);
      PowGrows(|Minimal(i)|);
    }
  }

  lemma {:induction false} PowGrows(k: nat)
    requires k >= 1
    ensures Pow256(k) >= 256
  {
    if k > 1 {
      PowGrows(k - 1);
    }
  }
}
