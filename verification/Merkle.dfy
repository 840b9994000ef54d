/** The Merkle root over a block's receipt hashes, computed level by level from the bottom. */
module Merkle {
  import opened Common

  /** Keccak-256 of the two children written one after the other. */
  type Hasher = Bytes -> Hash

  function Pair(l: Bytes, r: Bytes): Bytes {
    l + r
  }

  function Node(h: Hasher, l: Hash, r: Hash): Hash {
    h(Pair(l, r))
  }

  /** One level up: neighbours are combined, a lone last hash is promoted unchanged. */
  function Level(h: Hasher, s: seq<Hash>): (r: seq<Hash>)
    ensures |r| == (|s| + 1) / 2
  {
    if |s| == 0 then []
    else if |s| == 1 then s
    else [Node(h, s[0], s[1])] + Level(h, s[2..])
  }

  function Root(h: Hasher, s: seq<Hash>): Hash
    decreases |s|
  {
    if |s| == 0 then ZERO_HASH
    else if |s| == 1 then s[0]
    else Root(h, Level(h, s))
  }

  /** The inner loop: pair up neighbours from the left. */
  method NextLevel(h: Hasher, hashes: seq<Hash>) returns (next: seq<Hash>)
    ensures next == Level(h, hashes)
  {
    next := [];
    var i := 0;
    while i < |hashes|
      invariant 0 <= i <= |hashes| + 1
      invariant next + Level(h, hashes[Min(i, |hashes|)..]) == Level(h, hashes)
      decreases |hashes| - i
    {
      LevelFrom(h, hashes, i, next);
      if i + 1 < |hashes| {
        next := next + [Node(h, hashes[i], hashes[i + 1])];
      } else {
        next := next + [hashes[i]];
      }
      i := i + 2;
    }
  }

  method ComputeMerkleRoot(h: Hasher, leaves: seq<Hash>) returns (root: Hash)
    ensures root == Root(h, leaves)
  {
    if |leaves| == 0 {
      return ZERO_HASH;
    }
    if |leaves| == 1 {
      return leaves[0];
    }
    var hashes := leaves;
    while |hashes| > 1
      invariant |hashes| >= 1 && Root(h, hashes) == Root(h, leaves)
      decreases |hashes|
    {
      hashes := NextLevel(h, hashes);
    }
    root := hashes[0];
  }

  lemma LevelFrom(h: Hasher, s: seq<Hash>, i: nat, next: seq<Hash>)
    requires i < |s|
    ensures next + Level(h, s[i..]) ==
            next + [if i + 1 < |s| then Node(h, s[i], s[i + 1]) else s[i]] + Level(h, s[Min(i + 2, |s|)..])
  {
    if i + 1 < |s| {
      assert s[i..][2..] == s[i + 2..];
    } else {
      assert s[i..] == [s[i]];
    }
  }

  // ---------- the same tree from the top ----------

  /** The largest power of two strictly below n. */
  function Split(n: nat): (k: nat)
    requires n >= 2
    ensures 1 <= k < n <= 2 * k
    decreases n
  {
    if n == 2 then 1 else 2 * Split((n + 1) / 2)
  }

  ghost predicate PowerOfTwo(k: nat) {
    k == 1 || (k > 1 && k % 2 == 0 && PowerOfTwo(k / 2))
  }

  lemma {:induction false} SplitIsPower(n: nat)
    requires n >= 2
    ensures PowerOfTwo(Split(n))
    decreases n
  {
    if n > 2 {
      SplitIsPower((n + 1) / 2);
    }
  }

  /** The bounds n <= 2k and k < n leave one power of two. */
  lemma {:induction false} SplitIsOnly(n: nat, k: nat)
    requires n >= 2 && PowerOfTwo(k) && k < n <= 2 * k
    ensures k == Split(n)
    decreases n
  {
    if n > 2 {
      SplitIsOnly((n + 1) / 2, k / 2);
    }
  }

  /** The tree hash of section 2.1 of RFC 6962, without its leaf and node prefixes. */
  function TreeHash(h: Hasher, s: seq<Hash>): Hash
    decreases |s|
  {
    if |s| == 0 then ZERO_HASH
    else if |s| == 1 then s[0]
    else
      var k := Split(|s|);
      Node(h, TreeHash(h, s[..k]), TreeHash(h, s[k..]))
  }

  /** Pairing starts afresh at an even offset. */
  lemma {:induction false} LevelAppend(h: Hasher, a: seq<Hash>, b: seq<Hash>)
    requires |a| % 2 == 0
    ensures Level(h, a + b) == Level(h, a) + Level(h, b)
    decreases |a|
  {
    if |a| == 0 {
      assert a + b == b;
    } else {
      assert (a + b)[2..] == a[2..] + b;
      LevelAppend(h, a[2..], b);
    }
  }

  lemma {:induction false} SplitHalves(n: nat)
    requires n > 2
    ensures Split(n) % 2 == 0 && Split((n + 1) / 2) == Split(n) / 2
  {}

  /** Going one level up does not change the top-down hash. */
  lemma {:induction false} LevelKeepsTree(h: Hasher, s: seq<Hash>)
    requires |s| >= 2
    ensures TreeHash(h, Level(h, s)) == TreeHash(h, s)
    decreases |s|
  {
    if |s| == 2 {
      assert s[2..] == [];
      assert s[..1] == [s[0]] && s[1..] == [s[1]];
    } else {
      var k := Split(|s|);
      var a, b := s[..k], s[k..];
      LevelSplits(h, s);
      LevelKeepsTree(h, a);
      if |b| >= 2 {
        LevelKeepsTree(h, b);
      }
    }
  }

  /** One level up from a list of more than two splits into one level up from its two halves. */
  lemma LevelSplits(h: Hasher, s: seq<Hash>)
    requires |s| > 2
    ensures var k, up := Split(|s|), Level(h, s);
            && |up| >= 2 && Split(|up|) == k / 2
            && up[..k / 2] == Level(h, s[..k]) && up[k / 2..] == Level(h, s[k..])
            && (|s[k..]| == 1 ==> Level(h, s[k..]) == s[k..])
  {
    var k := Split(|s|);
    var a, b, up := s[..k], s[k..], Level(h, s);
    SplitHalves(|s|);
    assert s == a + b;
    LevelAppend(h, a, b);
    assert up == Level(h, a) + Level(h, b) && |Level(h, a)| == k / 2;
  }

  /**
    * For every list length the bottom-up root with lone-node promotion is the recursive
    * top-down root that splits at the largest power of two below the length.
    */
  lemma {:induction false} RootIsTreeHash(h: Hasher, s: seq<Hash>)
    ensures Root(h, s) == TreeHash(h, s)
    decreases |s|
  {
    if |s| >= 2 {
      LevelKeepsTree(h, s);
      RootIsTreeHash(h, Level(h, s));
    }
  }

  /**
    * The root of two or more leaves is the hash of the root of the left part followed by the
    * root of the right part; the left part is as long as the largest power of two below the
    * length.  One leaf is its own root.
    */
  lemma RootJoins(h: Hasher, s: seq<Hash>)
    ensures |s| == 1 ==> Root(h, s) == s[0]
    ensures |s| >= 2 ==>
              var l: Bytes, r: Bytes := Root(h, s[..Split(|s|)]), Root(h, s[Split(|s|)..]);
              Root(h, s) == h(l + r)
  {
    hide Split;
    RootIsTreeHash(h, s);
    if |s| >= 2 {
      RootIsTreeHash(h, s[..Split(|s|)]);
      RootIsTreeHash(h, s[Split(|s|)..]);
    }
  }

  // ---------- the root binds its leaves ----------

  /** The strings hashed while computing a root. */
  ghost function Hashed(h: Hasher, s: seq<Hash>): set<Bytes>
    decreases |s|
  {
    if |s| < 2 then {} else HashedInLevel(s) + Hashed(h, Level(h, s))
  }

  ghost function HashedInLevel(s: seq<Hash>): set<Bytes> {
    if |s| < 2 then {} else {Pair(s[0], s[1])} + HashedInLevel(s[2..])
  }

  /** h does not collide among the given strings. */
  ghost predicate NoCollision(h: Hasher, inputs: set<Bytes>) {
    forall x, y :: x in inputs && y in inputs && h(x) == h(y) ==> x == y
  }

  lemma {:induction false} LevelBinds(h: Hasher, s: seq<Hash>, t: seq<Hash>)
    requires |s| == |t| && Level(h, s) == Level(h, t)
    requires NoCollision(h, HashedInLevel(s) + HashedInLevel(t))
    ensures s == t
    decreases |s|
  {
    if |s| >= 2 {
      var u, v := Level(h, s), Level(h, t);
      assert u[0] == v[0] && u[1..] == Level(h, s[2..]) && v[1..] == Level(h, t[2..]);
      assert Pair(s[0], s[1]) in HashedInLevel(s) && Pair(t[0], t[1]) in HashedInLevel(t);
      PairBinds(s[0], s[1], t[0], t[1]);
      LevelBinds(h, s[2..], t[2..]);
      assert s == [s[0], s[1]] + s[2..] && t == [t[0], t[1]] + t[2..];
    }
  }

  lemma PairBinds(a: Hash, b: Hash, c: Hash, d: Hash)
    ensures Pair(a, b) == Pair(c, d) ==> a == c && b == d
  {
    assert Pair(a, b)[..32] == a && Pair(a, b)[32..] == b;
    assert Pair(c, d)[..32] == c && Pair(c, d)[32..] == d;
  }

  /** Equal roots over equally many leaves mean equal leaves, unless the hash collides on what was hashed. */
  lemma {:induction false} RootBinds(h: Hasher, s: seq<Hash>, t: seq<Hash>)
    requires |s| == |t| && Root(h, s) == Root(h, t)
    requires NoCollision(h, Hashed(h, s) + Hashed(h, t))
    ensures s == t
    decreases |s|
  {
    if |s| >= 2 {
      RootBinds(h, Level(h, s), Level(h, t));
      LevelBinds(h, s, t);
    }
  }

  /** Lists of any two positive lengths with one tree hash: a subtree on one side is a leaf on the other. */
  lemma {:induction false} TwinTrees(h: Hasher, m: nat, n: nat) returns (s: seq<Hash>, t: seq<Hash>)
    requires m >= 1 && n >= 1
    ensures |s| == m && |t| == n && TreeHash(h, s) == TreeHash(h, t)
    decreases m + n
  {
    if m == 1 {
      t := seq(n, _ => ZERO_HASH);
      s := [TreeHash(h, t)];
    } else if n == 1 {
      s := seq(m, _ => ZERO_HASH);
      t := [TreeHash(h, s)];
    } else {
      var s1, t1 := TwinTrees(h, Split(m), Split(n));
      var s2, t2 := TwinTrees(h, m - Split(m), n - Split(n));
      s, t := s1 + s2, t1 + t2;
      assert s[..Split(m)] == s1 && s[Split(m)..] == s2;
      assert t[..Split(n)] == t1 && t[Split(n)..] == t2;
    }
  }

  /**
    * Equal length is needed, for every hash function: any two different positive numbers of
    * leaves have lists with equal roots.
    */
  lemma LengthsCollide(h: Hasher, m: nat, n: nat)
    requires m >= 1 && n >= 1 && m != n
    ensures exists s, t :: |s| == m && |t| == n && s != t && Root(h, s) == Root(h, t)
  {
    var s, t := TwinTrees(h, m, n);
    RootIsTreeHash(h, s);
    RootIsTreeHash(h, t);
  }

  /** The plainest case: a lone hash is promoted as it is, so two leaves share a root with their node. */
  lemma LengthsCanCollide(h: Hasher, a: Hash, b: Hash)
    ensures Root(h, [a, b]) == Root(h, [Node(h, a, b)])
  {
    assert [a, b][2..] == [];
    assert Level(h, [a, b]) == [Node(h, a, b)];
  }
}
