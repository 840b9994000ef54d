/** Big-endian integers: minimal length, as big.Int writes them, and fixed width. */
module BigEndian {
  import opened Common

  /** big.Int.Bytes: no leading zero byte, and nothing at all for zero. */
  function Minimal(n: nat): (b: Bytes) {
    if n == 0 then [] else Minimal(n / 256) + [n % 256]
  }

  /** big.Int.SetBytes. */
  function Value(b: Bytes): nat {
    if b == [] then 0 else 256 * Value(b[..|b| - 1]) + b[|b| - 1]
  }

  /** The low w bytes of n. */
  function Fixed(n: nat, w: nat): (b: Bytes)
    ensures |b| == w
    decreases w
  {
    if w == 0 then [] else Fixed(n / 256, w - 1) + [n % 256]
  }

  function Pow256(k: nat): nat {
    if k == 0 then 1 else 256 * Pow256(k - 1)
  }

  lemma ValueSnoc(b: Bytes, x: byte)
    ensures Value(b + [x]) == 256 * Value(b) + x
  {
    assert (b + [x])[..|b|] == b;
  }

  /** Writing and reading back gives the number again. */
  lemma {:induction false} ValueOfMinimal(n: nat)
    ensures Value(Minimal(n)) == n
  {
    if n > 0 {
      ValueOfMinimal(n / 256);
      ValueSnoc(Minimal(n / 256), n % 256);
    }
  }

  lemma MinimalInjective(a: nat, b: nat)
    ensures Minimal(a) == Minimal(b) ==> a == b
  {
    ValueOfMinimal(a);
    ValueOfMinimal(b);
  }

  lemma {:induction false} ValuePositive(b: Bytes)
    requires b != [] && b[0] != 0
    ensures Value(b) > 0
  {
    if |b| > 1 {
      ValuePositive(b[..|b| - 1]);
    }
  }

  /** Reading and writing back gives the string again exactly when it has no leading zero. */
  lemma {:induction false} MinimalOfValue(b: Bytes)
    requires b == [] || b[0] != 0
    ensures Minimal(Value(b)) == b
  {
    if b != [] {
      ValuePositive(b);
      var front := b[..|b| - 1];
      MinimalOfValue(front);
      assert Value(b) / 256 == Value(front) && Value(b) % 256 == b[|b| - 1];
      assert b == front + [b[|b| - 1]];
    }
  }

  lemma {:induction false} MinimalStartsNonzero(n: nat)
    requires n > 0
    ensures Minimal(n) != [] && Minimal(n)[0] != 0
  {
    if n >= 256 {
      MinimalStartsNonzero(n / 256);
    } else {
      assert Minimal(n / 256) == [];
    }
  }

  lemma Shifted(x: nat, p: nat, v: nat, last: nat)
    ensures 256 * (x * p + v) + last == x * (256 * p) + (256 * v + last)
  {}

  /** A leading byte x in front of b weighs x * 256^|b|. */
  lemma {:induction false} ValuePrepend(x: byte, b: Bytes)
    ensures Value([x] + b) == x * Pow256(|b|) + Value(b)
  {
    if b == [] {
      assert [x] + b == [x];
      assert [x][..0] == [];
    } else {
      var front, last := b[..|b| - 1], b[|b| - 1];
      ValuePrepend(x, front);
      assert [x] + b == ([x] + front) + [last];
      ValueSnoc([x] + front, last);
      assert b == front + [last];
      Shifted(x, Pow256(|front|), Value(front), last);
    }
  }

  lemma {:induction false} LeadingZeros(zeros: Bytes, b: Bytes)
    requires forall k :: 0 <= k < |zeros| ==> zeros[k] == 0
    ensures Value(zeros + b) == Value(b)
  {
    if zeros == [] {
      assert zeros + b == b;
    } else {
      assert zeros + b == [0] + (zeros[1..] + b);
      ValuePrepend(0, zeros[1..] + b);
      LeadingZeros(zeros[1..], b);
    }
  }

  lemma {:induction false} ValueOfFixed(n: nat, w: nat)
    requires n < Pow256(w)
    ensures Value(Fixed(n, w)) == n
    decreases w
  {
    if w > 0 {
      assert n / 256 < Pow256(w - 1);
      ValueOfFixed(n / 256, w - 1);
      ValueSnoc(Fixed(n / 256, w - 1), n % 256);
    }
  }

  function Word(n: u64): (b: Bytes)
    ensures |b| == 8
  {
    Fixed(n, 8)
  }

  /** Eight big-endian bytes that read back as the number. */
  lemma ValueOfWord(n: u64)
    ensures Value(Word(n)) == n
  {
    assert Pow256(8) == U64 by {
      assert Pow256(2) == 0x1_0000;
      assert Pow256(4) == 0x1_0000_0000;
      assert Pow256(6) == 0x1_0000_0000_0000;
    }
    ValueOfFixed(n, 8);
  }

  lemma WordInjective(a: u64, b: u64)
    ensures Word(a) == Word(b) ==> a == b
  {
    ValueOfWord(a);
    ValueOfWord(b);
  }
}
